/** The LRU caching policy: a list of the cached keys, and a map from keys to list iterators. */
module LruPolicy {
  import opened Collections
  import opened Segments

  /** A list node; its `id` stands for the iterator to it, which stays valid while others come,
      go and move. */
  datatype Node = Node(id: nat, key: Key, size: nat)

  type Queue = seq<Node>

  ghost function SizeOf(q: Queue): nat {
    if q == [] then 0 else SizeOf(q[..|q| - 1]) + q[|q| - 1].size
  }

  lemma {:induction false} SizeOfAppend(a: Queue, b: Queue)
    ensures SizeOf(a + b) == SizeOf(a) + SizeOf(b)
    decreases |b|
  {
    if b == [] {
      assert a + b == a;
    } else {
      assert (a + b)[..|a + b| - 1] == a + b[..|b| - 1];
      SizeOfAppend(a, b[..|b| - 1]);
    }
  }

  // ---------------------------------------------------------------------------
  // The two indexes agree

  /** Each cached key is on the list once, and the map has the iterator to it. */
  ghost predicate Agree(q: Queue, iterators: map<Key, nat>, nextId: nat) {
    && (forall i | 0 <= i < |q| :: q[i].key in iterators && iterators[q[i].key] == q[i].id && q[i].id < nextId)
    && (forall i, j | 0 <= i < j < |q| :: q[i].id != q[j].id)
    && (forall k | k in iterators :: OnList(q, k))
  }

  ghost predicate OnList(q: Queue, k: Key) {
    exists i | 0 <= i < |q| :: q[i].key == k
  }

  /** `splice` of the node at `i` to the front. */
  function Touched(q: Queue, i: nat): Queue
    requires i < |q|
  {
    [q[i]] + q[..i] + q[i + 1..]
  }

  /** Where the node at `j` of the new list was. */
  ghost function Was(i: nat, j: nat): nat {
    if j == 0 then i else if j <= i then j - 1 else j
  }

  lemma TouchedAt(q: Queue, i: nat, j: nat)
    requires i < |q| && j < |q|
    ensures |Touched(q, i)| == |q| && Touched(q, i)[j] == q[Was(i, j)]
  {
  }

  lemma TouchedAgrees(q: Queue, iterators: map<Key, nat>, nextId: nat, i: nat)
    requires Agree(q, iterators, nextId) && i < |q|
    ensures Agree(Touched(q, i), iterators, nextId)
  {
    var q' := Touched(q, i);
    assert |q'| == |q|;
    forall j | 0 <= j < |q'|
      ensures q'[j].key in iterators && iterators[q'[j].key] == q'[j].id && q'[j].id < nextId
    {
      TouchedAt(q, i, j);
    }
    forall j, k | 0 <= j < k < |q'|
      ensures q'[j].id != q'[k].id
    {
      TouchedAt(q, i, j);
      TouchedAt(q, i, k);
    }
    forall k | k in iterators
      ensures OnList(q', k)
    {
      TouchedStillOnList(q, i, k);
    }
  }

  lemma TouchedStillOnList(q: Queue, i: nat, k: Key)
    requires i < |q| && OnList(q, k)
    ensures OnList(Touched(q, i), k)
  {
    var j :| 0 <= j < |q| && q[j].key == k;
    var j' := if j < i then j + 1 else if j == i then 0 else j;
    TouchedAt(q, i, j');
    assert Touched(q, i)[j'].key == k;
  }

  lemma SizeOfThree(a: Queue, b: Queue, c: Queue)
    ensures SizeOf(a + b + c) == SizeOf(a) + SizeOf(b) + SizeOf(c)
  {
    SizeOfAppend(a + b, c);
    SizeOfAppend(a, b);
  }

  lemma Parts(q: Queue, i: nat)
    requires i < |q|
    ensures q == q[..i] + [q[i]] + q[i + 1..]
  {
  }

  lemma SizeOfTouched(q: Queue, i: nat)
    requires i < |q|
    ensures SizeOf(Touched(q, i)) == SizeOf(q)
  {
    calc {
      SizeOf(Touched(q, i));
      { SizeOfSwapped(q[..i], [q[i]], q[i + 1..]); }
      SizeOf(q[..i] + [q[i]] + q[i + 1..]);
      { Parts(q, i); }
      SizeOf(q);
    }
  }

  lemma SizeOfSwapped(a: Queue, b: Queue, c: Queue)
    ensures SizeOf(a + b + c) == SizeOf(b + a + c)
  {
    SizeOfThree(a, b, c);
    SizeOfThree(b, a, c);
  }

  // ---------------------------------------------------------------------------
  // The order of last use

  /** When `k` was last used, counting uses from 1; 0 for never. */
  ghost function LastUse(uses: seq<Key>, k: Key): nat {
    if uses == [] then 0
    else if uses[|uses| - 1] == k then |uses|
    else LastUse(uses[..|uses| - 1], k)
  }

  lemma {:induction false} LastUseIsLast(uses: seq<Key>, k: Key)
    ensures LastUse(uses, k) <= |uses|
    ensures LastUse(uses, k) > 0 ==> uses[LastUse(uses, k) - 1] == k
    ensures forall i | LastUse(uses, k) <= i < |uses| :: uses[i] != k
    decreases |uses|
  {
    if uses != [] {
      LastUseIsLast(uses[..|uses| - 1], k);
    }
  }

  lemma LastUseAppend(uses: seq<Key>, k: Key, x: Key)
    ensures LastUse(uses + [k], x) == if x == k then |uses| + 1 else LastUse(uses, x)
  {
  }

  /** Most recently used first. */
  ghost predicate ByLastUse(q: Queue, uses: seq<Key>) {
    forall i, j | 0 <= i < j < |q| :: LastUse(uses, q[i].key) > LastUse(uses, q[j].key)
  }

  /** A use of a key that is not on the list does not change the order. */
  lemma OrderAfterMiss(q: Queue, uses: seq<Key>, k: Key)
    requires ByLastUse(q, uses) && !OnList(q, k)
    ensures ByLastUse(q, uses + [k])
  {
  }

  /** A key that is used goes to the front. */
  lemma OrderWithFront(q: Queue, uses: seq<Key>, x: Node)
    requires ByLastUse(q, uses) && !OnList(q, x.key)
    ensures ByLastUse([x] + q, uses + [x.key])
  {
    OrderAfterMiss(q, uses, x.key);
    LastUseAppend(uses, x.key, x.key);
    var q' := [x] + q;
    forall i, j | 0 <= i < j < |q'|
      ensures LastUse(uses + [x.key], q'[i].key) > LastUse(uses + [x.key], q'[j].key)
    {
      LastUseIsLast(uses, q'[j].key);
      LastUseAppend(uses, x.key, q'[j].key);
      assert q'[j] == q[j - 1];
    }
  }

  lemma OrderAfterHit(q: Queue, iterators: map<Key, nat>, nextId: nat, uses: seq<Key>, i: nat)
    requires Agree(q, iterators, nextId) && ByLastUse(q, uses) && i < |q|
    ensures ByLastUse(Touched(q, i), uses + [q[i].key])
  {
    var rest := q[..i] + q[i + 1..];
    assert Touched(q, i) == [q[i]] + rest;
    RestLacks(q, iterators, nextId, i);
    RestOrdered(q, uses, i);
    OrderWithFront(rest, uses, q[i]);
  }

  lemma RestLacks(q: Queue, iterators: map<Key, nat>, nextId: nat, i: nat)
    requires Agree(q, iterators, nextId) && i < |q|
    ensures !OnList(q[..i] + q[i + 1..], q[i].key)
  {
  }

  lemma RestOrdered(q: Queue, uses: seq<Key>, i: nat)
    requires ByLastUse(q, uses) && i < |q|
    ensures ByLastUse(q[..i] + q[i + 1..], uses)
  {
  }

  // ---------------------------------------------------------------------------
  // Eviction

  lemma PopAgrees(q: Queue, iterators: map<Key, nat>, nextId: nat)
    requires Agree(q, iterators, nextId) && q != []
    ensures Agree(q[..|q| - 1], iterators - {q[|q| - 1].key}, nextId)
  {
  }

  lemma PushAgrees(q: Queue, iterators: map<Key, nat>, nextId: nat, x: Node)
    requires Agree(q, iterators, nextId) && x.key !in iterators && x.id == nextId
    ensures Agree([x] + q, iterators[x.key := x.id], nextId + 1)
  {
    var q', iterators' := [x] + q, iterators[x.key := x.id];
    forall i | 0 <= i < |q'|
      ensures q'[i].key in iterators' && iterators'[q'[i].key] == q'[i].id && q'[i].id < nextId + 1
    {
      assert i > 0 ==> q'[i] == q[i - 1];
    }
    forall k | k in iterators'
      ensures OnList(q', k)
    {
      if k == x.key {
        assert q'[0].key == k;
      } else {
        var i :| 0 <= i < |q| && q[i].key == k;
        assert q'[i + 1].key == k;
      }
    }
  }

  /** A key that is on the list must not be stored again: the map keeps the old iterator, and the list
      has two nodes for the key. */
  lemma StoredTwiceDisagrees(q: Queue, iterators: map<Key, nat>, nextId: nat, x: Node)
    requires Agree(q, iterators, nextId) && x.key in iterators && x.id == nextId
    ensures !Agree([x] + q, iterators, nextId + 1)
  {
    assert OnList(q, x.key);
    assert ([x] + q)[0] == x;
  }

  /** Evicting the list from `m` on makes room for `size` bytes, and evicting less does not. */
  ghost predicate ShortestSuffix(q: Queue, m: nat, free: nat, size: nat)
    requires m <= |q|
  {
    && size <= free + SizeOf(q[m..])
    && forall n | m < n <= |q| :: free + SizeOf(q[n..]) < size
  }

  ghost function Reversed(q: Queue): Queue {
    seq(|q|, i requires 0 <= i < |q| => q[|q| - 1 - i])
  }

  /** The eviction loop, with `m` nodes left. */
  ghost predicate Evicting(q0: Queue, q: Queue, iterators: map<Key, nat>, nextId: nat, free: nat, removed: Queue,
                           free0: nat, size: nat)
  {
    && q <= q0 && Agree(q, iterators, nextId) && removed == Reversed(q0[|q|..])
    && free == free0 + SizeOf(q0[|q|..])
    && (forall n | |q| < n <= |q0| :: free0 + SizeOf(q0[n..]) < size)
  }

  lemma EvictOne(q0: Queue, q: Queue, iterators: map<Key, nat>, nextId: nat, free: nat, removed: Queue, free0: nat, size: nat)
    requires Evicting(q0, q, iterators, nextId, free, removed, free0, size) && free < size && q != []
    ensures var last := q[|q| - 1];
            Evicting(q0, q[..|q| - 1], iterators - {last.key}, nextId, free + last.size, removed + [last], free0, size)
  {
    PopAgrees(q, iterators, nextId);
    var m := |q| - 1;
    var last := q[m];
    SuffixGrows(q0, m);
    assert q0[m] == last;
    ReversedGrows(q0, m);
  }

  lemma ReversedGrows(q: Queue, m: nat)
    requires m < |q|
    ensures Reversed(q[m..]) == Reversed(q[m + 1..]) + [q[m]]
  {
  }

  lemma SuffixGrows(q: Queue, m: nat)
    requires m < |q|
    ensures SizeOf(q[m..]) == q[m].size + SizeOf(q[m + 1..])
  {
    calc {
      SizeOf(q[m..]);
      { assert q[m..] == [q[m]] + q[m + 1..]; }
      SizeOf([q[m]] + q[m + 1..]);
      { SizeOfAppend([q[m]], q[m + 1..]); }
      SizeOf([q[m]]) + SizeOf(q[m + 1..]);
      { assert [q[m]][..0] == []; }
      q[m].size + SizeOf(q[m + 1..]);
    }
  }

  lemma PrefixAndSuffix(q0: Queue, q: Queue)
    requires q <= q0
    ensures SizeOf(q0) == SizeOf(q) + SizeOf(q0[|q|..])
  {
    assert q0 == q + q0[|q|..];
    SizeOfAppend(q, q0[|q|..]);
  }

  method MakeRoom(q0: Queue, iterators0: map<Key, nat>, free0: nat, size: nat, ghost nextId: nat, ghost maxSize: nat)
    returns (q: Queue, iterators: map<Key, nat>, free: nat, removed: Queue)
    requires Agree(q0, iterators0, nextId) && free0 + SizeOf(q0) == maxSize && size <= maxSize
    ensures Evicting(q0, q, iterators, nextId, free, removed, free0, size) && size <= free
    ensures free + SizeOf(q) == maxSize
  {
    q, iterators, free, removed := q0, iterators0, free0, [];
    while free < size
      invariant Evicting(q0, q, iterators, nextId, free, removed, free0, size)
      decreases |q|
    {
      PrefixAndSuffix(q0, q);
      var last := q[|q| - 1];
      EvictOne(q0, q, iterators, nextId, free, removed, free0, size);
      removed := removed + [last];
      iterators := iterators - {last.key};
      q := q[..|q| - 1];
      free := free + last.size;
    }
    PrefixAndSuffix(q0, q);
  }

  // ---------------------------------------------------------------------------
  // The policy object

  /** Everything that holds between operations: the list and the map agree, the list is ordered
      by last use, and the bytes add up. */
  ghost predicate Ok(q: Queue, iterators: map<Key, nat>, nextId: nat, free: nat, maxSize: nat, uses: seq<Key>) {
    Agree(q, iterators, nextId) && ByLastUse(q, uses) && free + SizeOf(q) == maxSize
  }

  lemma HitKeepsOk(q: Queue, iterators: map<Key, nat>, nextId: nat, free: nat, maxSize: nat, uses: seq<Key>, i: nat)
    requires Ok(q, iterators, nextId, free, maxSize, uses) && i < |q|
    ensures Ok(Touched(q, i), iterators, nextId, free, maxSize, uses + [q[i].key])
  {
    TouchedAgrees(q, iterators, nextId, i);
    SizeOfTouched(q, i);
    OrderAfterHit(q, iterators, nextId, uses, i);
  }

  lemma NotOnList(q: Queue, iterators: map<Key, nat>, nextId: nat, k: Key)
    requires Agree(q, iterators, nextId)
    ensures k in iterators <==> OnList(q, k)
  {
  }

  lemma StoreKeepsOk(q0: Queue, uses: seq<Key>, q: Queue, iterators: map<Key, nat>, nextId: nat, free: nat, maxSize: nat, x: Node)
    requires ByLastUse(q0, uses) && q <= q0 && Agree(q, iterators, nextId) && free + SizeOf(q) == maxSize
    requires x.size <= free && x.id == nextId && x.key !in iterators
    ensures Ok([x] + q, iterators[x.key := x.id], nextId + 1, free - x.size, maxSize, uses + [x.key])
  {
    assert ByLastUse(q, uses);
    NotOnList(q, iterators, nextId, x.key);
    OrderWithFront(q, uses, x);
    PushAgrees(q, iterators, nextId, x);
    SizeOfAppend([x], q);
    assert SizeOf([x]) == x.size by { assert [x][..0] == []; }
  }

  /** The new key is in front of what is left of the list; what went is the shortest suffix that
      makes room, least recently used first. */
  ghost predicate StoredInFront(q0: Queue, free0: nat, q: Queue, removed: Queue, k: Key, size: nat) {
    && 0 < |q| <= |q0| + 1 && q[0].key == k && q[0].size == size
    && var m := |q| - 1;
       q[1..] == q0[..m] && removed == Reversed(q0[m..]) && ShortestSuffix(q0, m, free0, size)
  }

  lemma EvictedIsStored(q0: Queue, free0: nat, q: Queue, iterators: map<Key, nat>, nextId: nat, free: nat, removed: Queue, x: Node)
    requires Evicting(q0, q, iterators, nextId, free, removed, free0, x.size) && x.size <= free
    ensures StoredInFront(q0, free0, [x] + q, removed, x.key, x.size)
  {
  }

  class LruCachingPolicy {
    const maxSize: nat
    var usageQueue: Queue
    var keyIndexMap: map<Key, nat>
    var freeSize: nat
    var nextId: nat
    ghost var uses: seq<Key>      // every load, and every store that was accepted

    ghost predicate Valid()
      reads this
    {
      Ok(usageQueue, keyIndexMap, nextId, freeSize, maxSize, uses)
    }

    constructor (maxSize: nat)
      ensures Valid() && this.maxSize == maxSize && usageQueue == [] && freeSize == maxSize && uses == []
    {
      this.maxSize := maxSize;
      usageQueue, keyIndexMap, freeSize, nextId, uses := [], map[], maxSize, 0, [];
    }

    method OnLoad(k: Key)
      requires Valid()
      modifies this`usageQueue, this`uses
      ensures Valid() && uses == old(uses) + [k]
      ensures k !in keyIndexMap ==> usageQueue == old(usageQueue)
      ensures k in keyIndexMap ==> exists i | 0 <= i < |old(usageQueue)| ::
                old(usageQueue)[i].key == k && usageQueue == Touched(old(usageQueue), i)
    {
      NotOnList(usageQueue, keyIndexMap, nextId, k);
      if k in keyIndexMap {
        var i := Position(usageQueue, keyIndexMap, nextId, k);
        HitKeepsOk(usageQueue, keyIndexMap, nextId, freeSize, maxSize, uses, i);
        usageQueue := Touched(usageQueue, i);
      } else {
        OrderAfterMiss(usageQueue, uses, k);
      }
      uses := uses + [k];
    }

    method OnStore(k: Key, size: nat) returns (removed: Option<Queue>)
      requires Valid() && k !in keyIndexMap
      modifies this
      ensures Valid()
      ensures removed.None? <==> maxSize < size
      ensures removed.None? ==> unchanged(this)
      ensures removed.Some? ==>
                && uses == old(uses) + [k]
                && StoredInFront(old(usageQueue), old(freeSize), usageQueue, removed.value, k, size)
    {
      if maxSize < size {
        return None;
      }
      ghost var q0 := usageQueue;
      var q, iterators, free, victims := MakeRoom(usageQueue, keyIndexMap, freeSize, size, nextId, maxSize);
      var x := Node(nextId, k, size);
      EvictedIsStored(q0, freeSize, q, iterators, nextId, free, victims, x);
      StillLacks(q0, keyIndexMap, q, iterators, nextId, k);
      StoreKeepsOk(q0, uses, q, iterators, nextId, free, maxSize, x);
      usageQueue := [x] + q;
      keyIndexMap := iterators[k := x.id];
      freeSize := free - size;
      nextId := nextId + 1;
      uses := uses + [k];
      removed := Some(victims);
    }
  }

  /** Follows the iterator of `k`. */
  method Position(q: Queue, iterators: map<Key, nat>, ghost nextId: nat, k: Key) returns (i: nat)
    requires Agree(q, iterators, nextId) && k in iterators
    ensures i < |q| && q[i].key == k && q[i].id == iterators[k]
  {
    assert OnList(q, k);
    i :| 0 <= i < |q| && q[i].id == iterators[k];
    SameNode(q, iterators, nextId, k, i);
  }

  lemma SameNode(q: Queue, iterators: map<Key, nat>, nextId: nat, k: Key, i: nat)
    requires Agree(q, iterators, nextId) && k in iterators && i < |q| && q[i].id == iterators[k]
    ensures q[i].key == k
  {
  }

  lemma StillLacks(q0: Queue, iterators0: map<Key, nat>, q: Queue, iterators: map<Key, nat>, nextId: nat, k: Key)
    requires Agree(q0, iterators0, nextId) && Agree(q, iterators, nextId) && q <= q0 && k !in iterators0
    ensures k !in iterators
  {
  }
}
