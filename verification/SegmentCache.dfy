/** The segment cache: a map from keys to data that follows the decisions of one of the policies. */
module SegmentCaches {
  import opened Collections
  import opened Segments
  import opened Sums
  import Lru = LruPolicy
  import Lfu = LfuPolicy
  import Lazy = LazyHeapPolicy
  import Bel = BeladyPolicy

  type Data(==, !new)

  /** What a policy says to a store. `Undefined` is the case in which LFU reads from an empty set. */
  datatype Decision = Reject | Threw | Undefined | Accept(removed: seq<Key>)

  /** A decision and what it does to the tracked keys. */
  ghost predicate Decides(before: set<Key>, after: set<Key>, d: Decision, k: Key) {
    match d
    case Reject => after == before
    case Threw => after == before
    case Undefined => true
    case Accept(removed) => Elements(removed) <= before && after == before - Elements(removed) + {k}
  }

  // ---------------------------------------------------------------------------
  // Each policy decides so

  ghost function QueueKeys(q: Lru.Queue): set<Key> {
    set n | n in q :: n.key
  }

  lemma QueueKeysAreTracked(q: Lru.Queue, iterators: map<Key, nat>, nextId: nat)
    requires Lru.Agree(q, iterators, nextId)
    ensures QueueKeys(q) == iterators.Keys
  {
  }

  lemma QueueKeysSplit(q0: Lru.Queue, q: Lru.Queue, removed: Lru.Queue, iterators0: map<Key, nat>, nextId: nat, k: Key)
    requires Lru.Agree(q0, iterators0, nextId) && 0 < |q| <= |q0| + 1 && q[0].key == k
    requires q[1..] == q0[..|q| - 1] && removed == Lru.Reversed(q0[|q| - 1..])
    ensures QueueKeys(removed) <= QueueKeys(q0) && QueueKeys(q) == QueueKeys(q0) - QueueKeys(removed) + {k}
  {
    var m := |q| - 1;
    forall i | 0 <= i < |removed|
      ensures removed[i] == q0[|q0| - 1 - i] && m <= |q0| - 1 - i
    {
    }
    forall n | n in removed
      ensures exists j | m <= j < |q0| :: q0[j] == n
    {
      var i :| 0 <= i < |removed| && removed[i] == n;
      assert q0[|q0| - 1 - i] == n;
    }
    forall j | m <= j < |q0|
      ensures q0[j] in removed
    {
      assert removed[|q0| - 1 - j] == q0[j];
    }
    assert q == [q[0]] + q0[..m];
    KeysOfHalves(q0, m, iterators0, nextId);
    assert QueueKeys(removed) == QueueKeys(q0[m..]);
    assert QueueKeys(q) == {k} + QueueKeys(q0[..m]) by {
      assert q[0] in q && forall n | n in q0[..m] :: n in q;
      assert forall n | n in q :: n == q[0] || n in q0[..m];
    }
  }

  lemma KeysOfHalves(q: Lru.Queue, m: nat, iterators: map<Key, nat>, nextId: nat)
    requires Lru.Agree(q, iterators, nextId) && m <= |q|
    ensures QueueKeys(q[m..]) <= QueueKeys(q) && QueueKeys(q[..m]) == QueueKeys(q) - QueueKeys(q[m..])
  {
  }

  method QueueToKeys(q: Lru.Queue) returns (keys: seq<Key>)
    ensures Elements(keys) == QueueKeys(q)
  {
    keys := [];
    for i := 0 to |q|
      invariant Elements(keys) == QueueKeys(q[..i])
    {
      assert q[..i + 1] == q[..i] + [q[i]];
      assert QueueKeys(q[..i + 1]) == QueueKeys(q[..i]) + {q[i].key} by {
        assert q[i] in q[..i + 1] && forall n | n in q[..i] :: n in q[..i + 1];
        assert forall n | n in q[..i + 1] :: n in q[..i] || n == q[i];
      }
      assert Elements(keys + [q[i].key]) == Elements(keys) + {q[i].key};
      keys := keys + [q[i].key];
    }
    assert q[..|q|] == q;
  }

  method StoreInLru(p: Lru.LruCachingPolicy, k: Key, size: nat) returns (d: Decision)
    requires p.Valid() && k !in p.keyIndexMap
    modifies p
    ensures p.Valid() && Decides(old(p.keyIndexMap).Keys, p.keyIndexMap.Keys, d, k) && !d.Undefined?
  {
    ghost var q0, it0, id0 := p.usageQueue, p.keyIndexMap, p.nextId;
    QueueKeysAreTracked(q0, it0, id0);
    var removed := p.OnStore(k, size);
    if removed == None {
      return Reject;
    }
    QueueKeysAreTracked(p.usageQueue, p.keyIndexMap, p.nextId);
    QueueKeysSplit(q0, p.usageQueue, removed.value, it0, id0, k);
    var keys := QueueToKeys(removed.value);
    d := Accept(keys);
  }

  method StoreInLfu(p: Lfu.LfuCachingPolicy, k: Key, size: nat) returns (d: Decision)
    requires p.Valid() && k !in p.keyMap
    modifies p
    ensures !d.Undefined? ==> p.Valid()
    ensures Decides(old(p.keyMap).Keys, p.keyMap.Keys, d, k)
  {
    var r := p.OnStore(k, size);
    match r
    case Threw => d := Threw;
    case Rejected => d := Reject;
    case Undefined => d := Undefined;
    case Stored(removed) => d := Accept(removed);
  }

  method RefsToKeys(objects: seq<Lazy.SegmentKey>, refs: seq<Lazy.Ref>) returns (keys: seq<Key>)
    requires forall r | r in refs :: r < |objects|
    ensures Elements(keys) == Lazy.KeysOf(objects, refs)
  {
    keys := [];
    for i := 0 to |refs|
      invariant (forall r | r in refs[..i] :: r in refs) && Elements(keys) == Lazy.KeysOf(objects, refs[..i])
    {
      assert refs[i] in refs;
      assert refs[..i + 1] == refs[..i] + [refs[i]];
      Lazy.KeysOfAppend(objects, refs[..i], refs[i]);
      assert Elements(keys + [objects[refs[i]].key]) == Elements(keys) + {objects[refs[i]].key};
      keys := keys + [objects[refs[i]].key];
    }
    assert refs[..|refs|] == refs;
  }

  lemma StoredDecides(s: Lazy.State, s': Lazy.State, maxSize: nat, byWeight: bool, k: Key, size: nat, removed: seq<Lazy.Ref>)
    requires Lazy.Stores(s, s', maxSize, byWeight, k, size, Lazy.Stored(removed))
    ensures forall r | r in removed :: r < |s'.objects|
    ensures Lazy.KeysOf(s'.objects, removed) <= s.cached.Keys
    ensures s'.cached.Keys == s.cached.Keys - Lazy.KeysOf(s'.objects, removed) + {k}
  {
  }

  method StoreInLazyHeap(p: Lazy.LazyHeapCachingPolicy, k: Key, size: nat) returns (d: Decision)
    requires p.Valid() && k !in p.keySetInCache
    modifies p
    ensures p.Valid() && Decides(old(p.keySetInCache).Keys, p.keySetInCache.Keys, d, k) && !d.Undefined?
  {
    ghost var s := p.Now();
    var r := p.OnStore(k, size);
    match r
    case Threw => d := Threw;
    case Rejected => d := Reject;
    case Stored(removed) =>
      StoredDecides(s, p.Now(), p.maxSize, p.byWeight, k, size, removed);
      var keys := RefsToKeys(p.objects, removed);
      d := Accept(keys);
  }

  method StoreInBelady(p: Bel.BeladyCachingPolicy, k: Key, size: nat) returns (d: Decision)
    requires p.Valid() && k !in p.keysInCache
    modifies p
    ensures (k in p.sizes ==> 99 * size <= 100 * p.sizes[k]) ==> p.Valid()
    ensures Decides(old(p.keysInCache).Keys, p.keysInCache.Keys, d, k) && !d.Undefined?
  {
    var r := p.OnStore(k, size);
    match r
    case Threw => d := Threw;
    case Rejected => d := Reject;
    case Stored(removed) => d := Accept(removed);
  }

  // ---------------------------------------------------------------------------
  // A policy of any kind

  datatype Policy =
    | LRU(lru: Lru.LruCachingPolicy)
    | LFU(lfu: Lfu.LfuCachingPolicy)
    | LazyHeap(lazy: Lazy.LazyHeapCachingPolicy)
    | Belady(belady: Bel.BeladyCachingPolicy)

  ghost function Objects(p: Policy): set<object> {
    match p
    case LRU(lru) => {lru}
    case LFU(lfu) => {lfu}
    case LazyHeap(lazy) => {lazy}
    case Belady(belady) => {belady, belady.helper}
  }

  /** What `onStore` may change. */
  ghost function Changed(p: Policy): object {
    match p
    case LRU(lru) => lru
    case LFU(lfu) => lfu
    case LazyHeap(lazy) => lazy
    case Belady(belady) => belady
  }

  ghost predicate PolicyValid(p: Policy)
    reads Objects(p)
  {
    match p
    case LRU(lru) => lru.Valid()
    case LFU(lfu) => lfu.Valid()
    case LazyHeap(lazy) => lazy.Valid()
    case Belady(belady) => belady.Valid()
  }

  ghost function Tracked(p: Policy): set<Key>
    reads Objects(p)
  {
    match p
    case LRU(lru) => lru.keyIndexMap.Keys
    case LFU(lfu) => lfu.keyMap.Keys
    case LazyHeap(lazy) => lazy.keySetInCache.Keys
    case Belady(belady) => belady.keysInCache.Keys
  }

  ghost function Capacity(p: Policy): nat {
    match p
    case LRU(lru) => lru.maxSize
    case LFU(lfu) => lfu.maxSize
    case LazyHeap(lazy) => lazy.maxSize
    case Belady(belady) => belady.maxSize
  }

  /** The sizes of the tracked keys, as the policy has them on the keys. */
  ghost function Bytes(p: Policy): nat
    reads Objects(p)
  {
    match p
    case LRU(lru) => Lru.SizeOf(lru.usageQueue)
    case LFU(lfu) => Sum(lfu.keyMap.Keys, Lfu.SizeIn(lfu.keySet))
    case LazyHeap(lazy) => Sum(lazy.keySetInCache.Keys, Lazy.SizeIn(lazy.Now()))
    case Belady(belady) => Total(belady.keysInCache)
  }

  /** What is tracked fits. */
  lemma FitsCapacity(p: Policy)
    requires PolicyValid(p)
    ensures Bytes(p) <= Capacity(p)
  {
  }

  /** Belady counts on segments that are at most one percent larger than planned; its own check of
      that can be passed by a much larger one. */
  ghost predicate SizeInRange(p: Policy, k: Key, size: nat) {
    p.Belady? && k in p.belady.sizes ==> 99 * size <= 100 * p.belady.sizes[k]
  }

  method OnStore(p: Policy, k: Key, size: nat) returns (d: Decision)
    requires PolicyValid(p) && k !in Tracked(p)
    modifies Changed(p)
    ensures !d.Undefined? && SizeInRange(p, k, size) ==> PolicyValid(p)
    ensures Decides(old(Tracked(p)), Tracked(p), d, k)
  {
    match p
    case LRU(lru) => d := StoreInLru(lru, k, size);
    case LFU(lfu) => d := StoreInLfu(lfu, k, size);
    case LazyHeap(lazy) => d := StoreInLazyHeap(lazy, k, size);
    case Belady(belady) => d := StoreInBelady(belady, k, size);
  }

  datatype LoadEffect = Fine | Throws | Unclear

  /** A load never changes which keys are tracked. */
  method OnLoad(p: Policy, k: Key, size: nat) returns (e: LoadEffect)
    requires PolicyValid(p)
    modifies Changed(p)
    ensures !e.Unclear? ==> PolicyValid(p) && Tracked(p) == old(Tracked(p))
    ensures e.Unclear? ==> p.LFU? && old(Tracked(p)) == {k}
    ensures e.Throws? ==> p.LazyHeap? && k !in p.lazy.segmentSizes
  {
    e := Fine;
    match p
    case LRU(lru) => lru.OnLoad(k);
    case LFU(lfu) =>
      var defined := lfu.OnLoad(k, Lfu.Meta(size, 1));
      if !defined {
        e := Unclear;
      }
    case LazyHeap(lazy) =>
      var threw := LoadInLazyHeap(lazy, k, size);
      if threw {
        e := Throws;
      }
    case Belady(_) =>
  }

  method LoadInLazyHeap(p: Lazy.LazyHeapCachingPolicy, k: Key, size: nat) returns (threw: bool)
    requires p.Valid()
    modifies p
    ensures p.Valid() && p.keySetInCache.Keys == old(p.keySetInCache).Keys && (threw ==> k !in p.segmentSizes)
  {
    threw := p.OnLoad(Lazy.SegmentKey(k, size, 1, Lazy.Finite(0.0), 0.0, true));
  }

  // ---------------------------------------------------------------------------
  // The cache

  class SegmentCache {
    const policy: Policy
    var entries: map<Key, Data>
    ghost var latest: map<Key, Data>    // the data of the latest accepted store of each key

    ghost predicate Valid()
      reads this, Objects(policy)
    {
      && this !in Objects(policy) && PolicyValid(policy)
      && entries.Keys == Tracked(policy)
      && MatchLatest(entries, latest)
    }

    constructor (policy: Policy)
      requires PolicyValid(policy) && Tracked(policy) == {}
      ensures Valid() && this.policy == policy && entries == map[]
    {
      this.policy, entries, latest := policy, map[], map[];
    }

    /** A decision other than accepting leaves the map as it is. */
    method Store(k: Key, size: nat, data: Data) returns (d: Decision)
      requires Valid() && k !in entries
      modifies this`entries, this`latest, Changed(policy)
      ensures !d.Undefined? && SizeInRange(policy, k, size) ==> Valid()
      ensures entries == if d.Accept? then (old(entries) - Elements(d.removed))[k := data] else old(entries)
      ensures latest == if d.Accept? then old(latest)[k := data] else old(latest)
    {
      d := OnStore(policy, k, size);
      if d.Accept? {
        FollowKeepsLatest(entries, latest, d.removed, k, data);
        Follow(k, data, d.removed);
      }
    }

    method Follow(k: Key, data: Data, removed: seq<Key>)
      modifies this`entries, this`latest
      ensures entries == (old(entries) - Elements(removed))[k := data] && latest == old(latest)[k := data]
    {
      var kept := EraseAll(entries, removed);
      entries := kept[k := data];
      latest := latest[k := data];
    }

    /** A hit exactly when the key is tracked, and then with the data of its latest accepted store. */
    method Load(k: Key, size: nat) returns (data: Option<Data>, e: LoadEffect)
      requires Valid()
      modifies Changed(policy)
      ensures !e.Unclear? ==> Valid() && Tracked(policy) == old(Tracked(policy))
      ensures e.Fine? ==> data == (if k in Tracked(policy) then Some(latest[k]) else None)
    {
      e := OnLoad(policy, k, size);
      data := if k in entries then Some(entries[k]) else None;
    }
  }

  ghost predicate MatchLatest(entries: map<Key, Data>, latest: map<Key, Data>) {
    forall k | k in entries :: k in latest && latest[k] == entries[k]
  }

  lemma FollowKeepsLatest(entries: map<Key, Data>, latest: map<Key, Data>, removed: seq<Key>, k: Key, data: Data)
    requires MatchLatest(entries, latest)
    ensures MatchLatest((entries - Elements(removed))[k := data], latest[k := data])
    ensures (entries - Elements(removed))[k := data].Keys == entries.Keys - Elements(removed) + {k}
  {
  }

  method EraseAll(entries0: map<Key, Data>, keys: seq<Key>) returns (entries: map<Key, Data>)
    ensures entries == entries0 - Elements(keys)
  {
    entries := entries0;
    for i := 0 to |keys|
      invariant entries == entries0 - Elements(keys[..i])
    {
      assert keys[..i + 1] == keys[..i] + [keys[i]];
      assert Elements(keys[..i + 1]) == Elements(keys[..i]) + {keys[i]};
      entries := entries - {keys[i]};
    }
    assert keys[..|keys|] == keys;
  }

  // ---------------------------------------------------------------------------
  // The consistency check

  /** Throws exactly when the policy reports other keys than the map has. */
  method CheckConsistency(reported: set<Key>, entries: map<Key, Data>) returns (threw: bool)
    ensures threw <==> reported != entries.Keys
  {
    if |reported| != |entries.Keys| {
      return true;
    }
    var todo := reported;
    while todo != {}
      invariant todo <= reported && reported - todo <= entries.Keys
      decreases |todo|
    {
      var k :| k in todo;
      if k !in entries {
        return true;
      }
      todo := todo - {k};
    }
    SubsetOfSameSize(reported, entries.Keys);
    threw := false;
  }
}
