/** Multimaps from keys to row numbers, as multisets of entries. */
module Multimaps {

  datatype Entry<K> = Entry(key: K, row: nat)

  /** One entry per key, numbered from `offset`: how often `e` should be there. */
  ghost function Expected<K>(keys: seq<K>, offset: nat, e: Entry<K>): nat {
    if offset <= e.row < offset + |keys| && keys[e.row - offset] == e.key then 1 else 0
  }

  /** An entry is there, once, exactly when its number has its key. */
  ghost predicate Indexes<K(!new)>(m: multiset<Entry<K>>, keys: seq<K>, offset: nat) {
    forall e :: m[e] == Expected(keys, offset, e)
  }

  /** A table has one index, however it was made. */
  lemma IndexIsUnique<K(!new)>(m: multiset<Entry<K>>, m': multiset<Entry<K>>, keys: seq<K>, offset: nat)
    requires Indexes(m, keys, offset)
    ensures Indexes(m', keys, offset) <==> m' == m
  {
  }

  /** Indexing piece by piece gives what indexing at once gives. */
  lemma IndexAppend<K(!new)>(m: multiset<Entry<K>>, m': multiset<Entry<K>>, a: seq<K>, b: seq<K>, offset: nat)
    requires Indexes(m, a, offset) && Indexes(m', b, offset + |a|)
    ensures Indexes(m + m', a + b, offset)
  {
  }

  /** There are as many entries as rows. */
  lemma {:induction false} IndexSize<K(!new)>(m: multiset<Entry<K>>, keys: seq<K>, offset: nat)
    requires Indexes(m, keys, offset)
    ensures |m| == |keys|
    decreases |keys|
  {
    if keys == [] {
      assert forall e :: m[e] == 0;
      assert m == multiset{};
    } else {
      var n := |keys| - 1;
      var last := Entry(keys[n], offset + n);
      assert m[last] == 1;
      assert m == (m - multiset{last}) + multiset{last};
      IndexSize(m - multiset{last}, keys[..n], offset);
    }
  }

  // ---------------------------------------------------------------------------
  // Raising the numbers

  /** How many entries `e` there are after those of `m` that are not in `rest` were raised. */
  ghost function Raised<K>(m: multiset<Entry<K>>, rest: multiset<Entry<K>>, offset: nat, e: Entry<K>): int {
    if e.row < offset then 0
    else
      var low := Entry(e.key, e.row - offset);
      m[low] as int - rest[low] as int
  }

  ghost predicate Moved<K(!new)>(m: multiset<Entry<K>>, rest: multiset<Entry<K>>, moved: multiset<Entry<K>>, offset: nat) {
    rest <= m && forall e :: moved[e] == Raised(m, rest, offset, e)
  }

  lemma MoveOne<K(!new)>(m: multiset<Entry<K>>, rest: multiset<Entry<K>>, moved: multiset<Entry<K>>, offset: nat, e: Entry<K>)
    requires Moved(m, rest, moved, offset) && e in rest
    ensures Moved(m, rest - multiset{e}, moved + multiset{Entry(e.key, e.row + offset)}, offset)
  {
  }

  /** The loop of `merge`. */
  method Move<K(!new, ==)>(m: multiset<Entry<K>>, offset: nat) returns (moved: multiset<Entry<K>>)
    ensures Moved(m, multiset{}, moved, offset)
  {
    moved := multiset{};
    var rest := m;
    while rest != multiset{}
      invariant Moved(m, rest, moved, offset)
      decreases |rest|
    {
      var e :| e in rest;
      MoveOne(m, rest, moved, offset, e);
      moved := moved + multiset{Entry(e.key, e.row + offset)};
      rest := rest - multiset{e};
    }
  }

  lemma MovedIndex<K(!new)>(m: multiset<Entry<K>>, keys: seq<K>, moved: multiset<Entry<K>>, offset: nat)
    requires Indexes(m, keys, 0) && Moved(m, multiset{}, moved, offset)
    ensures Indexes(moved, keys, offset)
  {
  }

  // ---------------------------------------------------------------------------
  // Looking up a key

  /** `found` lists the numbers of the entries with this key, once per entry, except those in `rest`. */
  ghost predicate Found<K>(m: multiset<Entry<K>>, rest: multiset<Entry<K>>, found: seq<nat>, k: K) {
    rest <= m && forall r: nat :: multiset(found)[r] == m[Entry(k, r)] - rest[Entry(k, r)]
  }

  method Find<K(==)>(m: multiset<Entry<K>>, k: K) returns (found: seq<nat>)
    ensures Found(m, multiset{}, found, k)
  {
    found := [];
    var rest := m;
    while rest != multiset{}
      invariant Found(m, rest, found, k)
      decreases |rest|
    {
      var e :| e in rest;
      if e.key == k {
        found := found + [e.row];
      }
      rest := rest - multiset{e};
    }
  }

  /** On the index of a table: exactly the rows with the key, each once. */
  lemma FoundExactly<K(!new)>(m: multiset<Entry<K>>, keys: seq<K>, found: seq<nat>, k: K, r: nat)
    requires Indexes(m, keys, 0) && Found(m, multiset{}, found, k)
    ensures multiset(found)[r] == if r < |keys| && keys[r] == k then 1 else 0
    ensures r in found <==> r < |keys| && keys[r] == k
  {
  }
}
