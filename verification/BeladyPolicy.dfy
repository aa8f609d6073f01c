/** The Belady caching policy: a plan made in advance, and a cache that must follow it without
    ever holding more bytes than it may. */
module BeladyPolicy {
  import opened Collections
  import opened Segments
  import opened Sums
  import opened BeladyPlanning

  const TWO_TO_31 := 0x8000_0000
  const TWO_TO_32 := 0x1_0000_0000
  const TWO_TO_64 := 0x1_0000_0000_0000_0000

  /** Planning uses 99% of the cache: the sizes known in advance may be slightly off. */
  function Budget(maxSize: nat): (budget: nat)
    ensures 100 * budget <= 99 * maxSize < 100 * (budget + 1)
  {
    maxSize * 99 / 100
  }

  // ---------------------------------------------------------------------------
  // Sizes known in advance and actual sizes

  /** The value of a 64-bit difference after `(int)`. */
  function Truncated(difference: int): int {
    (difference + TWO_TO_31) % TWO_TO_32 - TWO_TO_31
  }

  function Abs(x: int): nat {
    if x < 0 then -x else x
  }

  /** `onStore` accepts an actual size whose (truncated) difference to the planned size is at most
      one percent of the actual size. */
  predicate AcceptsSize(actual: nat, planned: nat) {
    Abs(Truncated(actual - planned)) <= actual / 100
  }

  lemma AcceptedSizeIsClose(actual: nat, planned: nat)
    requires Abs(actual - planned) < TWO_TO_31
    ensures AcceptsSize(actual, planned) <==> Abs(actual - planned) <= actual / 100
    ensures AcceptsSize(actual, planned) ==> 99 * actual <= 100 * planned
  {
  }

  /** For every size of which one percent is an `int`: the check never refuses a size within one
      percent, and one that it accepts is within one percent exactly when it is less than 2^31 off. */
  lemma TruncatedCheckExactly(actual: nat, planned: nat)
    requires actual < 100 * TWO_TO_31
    ensures Abs(actual - planned) <= actual / 100 ==> AcceptsSize(actual, planned)
    ensures AcceptsSize(actual, planned) ==> (Abs(actual - planned) <= actual / 100 <==> Abs(actual - planned) < TWO_TO_31)
  {
    if Abs(actual - planned) < TWO_TO_31 {
      AcceptedSizeIsClose(actual, planned);
    }
  }

  /** The truncation matters: a size 4 GiB off passes the test. */
  lemma TruncationHidesDifference(planned: nat)
    requires planned < TWO_TO_32
    ensures AcceptsSize(planned + TWO_TO_32, planned) && 99 * (planned + TWO_TO_32) > 100 * planned
  {
  }

  // ---------------------------------------------------------------------------
  // The cache

  /** The cached keys with the actual sizes they were stored with, and `freeSize_`. */
  datatype Cache = Cache(keys: map<Key, nat>, free: int)

  /** Unsigned 64-bit arithmetic. */
  function Wrap64(x: int): nat {
    if 0 <= x < TWO_TO_64 then x else x % TWO_TO_64
  }

  ghost function Kept(keys: map<Key, nat>, planned: set<Key>): map<Key, nat> {
    map k | k in keys && k in planned :: keys[k]
  }

  /** What an accepted size does to the cache. */
  ghost function AfterStore(c: Cache, planned: set<Key>, maxSize: nat, k: Key, actual: nat): Cache {
    if maxSize < actual || k !in planned then c
    else if actual < c.free then Cache(c.keys[k := actual], Wrap64(c.free - actual))
    else
      var kept := Kept(c.keys, planned);
      Cache(kept[k := actual], Wrap64(c.free + Total(c.keys) - Total(kept) - actual))
  }

  /** The bytes add up, and every actual size is within tolerance of its planned size. */
  ghost predicate Exact(c: Cache, sizes: map<Key, nat>, maxSize: nat) {
    && 0 <= c.free && c.free + Total(c.keys) == maxSize < TWO_TO_64
    && forall k | k in c.keys :: k in sizes && 99 * c.keys[k] <= 100 * sizes[k]
  }

  ghost predicate WithinBudget(planned: set<Key>, sizes: map<Key, nat>, maxSize: nat) {
    planned <= sizes.Keys && Sum(planned, Of(sizes)) <= Budget(maxSize)
  }

  /** The arithmetic core: a cache holding only planned keys fits. */
  lemma PlannedKeysFit(keys: map<Key, nat>, planned: set<Key>, sizes: map<Key, nat>, maxSize: nat)
    requires WithinBudget(planned, sizes, maxSize) && keys.Keys <= planned
    requires forall k | k in keys :: 99 * keys[k] <= 100 * sizes[k]
    ensures Total(keys) <= maxSize
  {
    SumScales(keys.Keys, Of(keys), Of(sizes), 99, 100);
    SumSplit(planned, keys.Keys, Of(sizes));
  }

  lemma StoreKeepsExact(c: Cache, planned: set<Key>, sizes: map<Key, nat>, maxSize: nat, k: Key, actual: nat)
    requires Exact(c, sizes, maxSize) && WithinBudget(planned, sizes, maxSize)
    requires k !in c.keys && k in sizes && 99 * actual <= 100 * sizes[k]
    ensures Exact(AfterStore(c, planned, maxSize, k, actual), sizes, maxSize)
  {
    if maxSize >= actual && k in planned {
      if actual < c.free {
        TotalInsert(c.keys, k, actual);
      } else {
        var kept := Kept(c.keys, planned);
        TotalInsert(kept, k, actual);
        PlannedKeysFit(kept[k := actual], planned, sizes, maxSize);
      }
    }
  }

  /** Whatever its size, a stored segment leaves the bytes right exactly when there is room for it;
      else the unsigned counter wraps around. */
  lemma StoreCountsBytesExactly(c: Cache, planned: set<Key>, maxSize: nat, k: Key, actual: nat)
    requires 0 <= c.free && c.free + Total(c.keys) == maxSize < TWO_TO_64
    requires k !in c.keys && k in planned && actual <= maxSize
    ensures var c' := AfterStore(c, planned, maxSize, k, actual);
            c'.free + Total(c'.keys) == maxSize <==> actual < c.free || Total(Kept(c.keys, planned)) + actual <= maxSize
  {
    var kept := Kept(c.keys, planned);
    TotalInsert(c.keys, k, actual);
    TotalInsert(kept, k, actual);
    KeptIsLess(c.keys, planned);
  }

  lemma KeptIsLess(keys: map<Key, nat>, planned: set<Key>)
    ensures Total(Kept(keys, planned)) <= Total(keys)
  {
    var kept := Kept(keys, planned);
    SumSplit(keys.Keys, kept.Keys, Of(keys));
    SumAgrees(kept.Keys, Of(kept), Of(keys));
  }

  /** A cached key must not be stored again: the set has it already, and its bytes are taken twice. */
  lemma StoredTwiceMiscounts(c: Cache, maxSize: nat, k: Key)
    requires 0 <= c.free && c.free + Total(c.keys) == maxSize && k in c.keys && 0 < c.keys[k] < c.free
    ensures Wrap64(c.free - c.keys[k]) + Total(c.keys[k := c.keys[k]]) != maxSize
  {
    assert c.keys[k := c.keys[k]] == c.keys;
  }

  // ---------------------------------------------------------------------------
  // Whole runs

  datatype Store = Store(key: Key, actual: nat)

  ghost function AfterStores(c: Cache, planned: set<Key>, maxSize: nat, stores: seq<Store>): Cache {
    if stores == [] then c
    else
      var last := stores[|stores| - 1];
      AfterStore(AfterStores(c, planned, maxSize, stores[..|stores| - 1]), planned, maxSize, last.key, last.actual)
  }

  ghost function StoredKeys(stores: seq<Store>): set<Key> {
    set s | s in stores :: s.key
  }

  /** The stores one query makes, in any order: each key once, each within tolerance. */
  ghost predicate StoresOnce(stores: seq<Store>, sizes: map<Key, nat>) {
    && (forall i, j | 0 <= i < j < |stores| :: stores[i].key != stores[j].key)
    && (forall s | s in stores :: s.key in sizes && 99 * s.actual <= 100 * sizes[s.key])
  }

  lemma PlannedSizeFits(planned: set<Key>, sizes: map<Key, nat>, maxSize: nat, k: Key, actual: nat)
    requires WithinBudget(planned, sizes, maxSize) && k in planned && 99 * actual <= 100 * sizes[k]
    ensures actual <= maxSize
  {
    SumRemove(planned, k, Of(sizes));
  }

  /** `c'` is `c` after the planned keys `stored` came in: nothing planned went, nothing else came. */
  ghost predicate Reached(c: Cache, c': Cache, planned: set<Key>, stored: set<Key>, sizes: map<Key, nat>, maxSize: nat) {
    && Exact(c', sizes, maxSize)
    && c'.keys.Keys <= c.keys.Keys + stored
    && planned * c.keys.Keys + stored <= c'.keys.Keys
  }

  lemma ReachedOneMore(c: Cache, b: Cache, planned: set<Key>, stored: set<Key>, sizes: map<Key, nat>, maxSize: nat,
                       k: Key, actual: nat)
    requires Reached(c, b, planned, stored, sizes, maxSize) && WithinBudget(planned, sizes, maxSize)
    requires stored <= planned && k in planned && k !in c.keys && k !in stored && 99 * actual <= 100 * sizes[k]
    ensures Reached(c, AfterStore(b, planned, maxSize, k, actual), planned, stored + {k}, sizes, maxSize)
  {
    StoreKeepsExact(b, planned, sizes, maxSize, k, actual);
    PlannedSizeFits(planned, sizes, maxSize, k, actual);
    StoreAdds(b, planned, maxSize, k, actual);
  }

  lemma {:induction false} StoresReachPlan(c: Cache, planned: set<Key>, sizes: map<Key, nat>, maxSize: nat, stores: seq<Store>)
    requires Exact(c, sizes, maxSize) && WithinBudget(planned, sizes, maxSize)
    requires StoresOnce(stores, sizes) && StoredKeys(stores) <= planned - c.keys.Keys
    ensures Reached(c, AfterStores(c, planned, maxSize, stores), planned, StoredKeys(stores), sizes, maxSize)
    decreases |stores|
  {
    if stores != [] {
      var before, last := stores[..|stores| - 1], stores[|stores| - 1];
      assert stores == before + [last];
      StoredKeysAppend(before, last);
      StoresReachPlan(c, planned, sizes, maxSize, before);
      assert last in stores && last.key !in StoredKeys(before);
      ReachedOneMore(c, AfterStores(c, planned, maxSize, before), planned, StoredKeys(before), sizes, maxSize,
                     last.key, last.actual);
    }
  }

  lemma StoredKeysAppend(before: seq<Store>, last: Store)
    ensures StoredKeys(before + [last]) == StoredKeys(before) + {last.key}
  {
  }

  lemma StoreAdds(c: Cache, planned: set<Key>, maxSize: nat, k: Key, actual: nat)
    requires k in planned && actual <= maxSize
    ensures var c' := AfterStore(c, planned, maxSize, k, actual);
            c'.keys.Keys <= c.keys.Keys + {k} && planned * c.keys.Keys + {k} <= c'.keys.Keys
  {
  }

  /** A run of queries 1, 2, ... with the plan made for them: before each query the cache holds
      some keys; the query loads its segments, and stores those it missed and may keep. */
  datatype Run = Run(
    queries: seq<set<Key>>,     // what query q uses, at index q - 1
    plan: seq<set<Key>>,        // what to keep after query q
    stores: seq<seq<Store>>)    // what query q stores

  ghost function CacheAfter(run: Run, maxSize: nat, q: nat): Cache
    requires q <= |run.plan| && q <= |run.stores|
  {
    if q == 0 then Cache(map[], maxSize)
    else AfterStores(CacheAfter(run, maxSize, q - 1), run.plan[q - 1], maxSize, run.stores[q - 1])
  }

  /** What is to be in the cache after query `q`. */
  ghost function PlannedAfter(run: Run, q: nat): set<Key>
    requires q <= |run.plan|
  {
    if q == 0 then {} else run.plan[q - 1]
  }

  /** The plan keeps only what the previous query left or the query itself uses, within budget. */
  ghost predicate SoundPlan(run: Run, sizes: map<Key, nat>, maxSize: nat) {
    && |run.plan| == |run.queries| == |run.stores|
    && forall q | 0 <= q < |run.plan| :: SoundDecision(run, sizes, maxSize, q)
  }

  ghost predicate SoundDecision(run: Run, sizes: map<Key, nat>, maxSize: nat, q: nat)
    requires q < |run.plan| == |run.queries|
  {
    WithinBudget(run.plan[q], sizes, maxSize) && run.plan[q] <= run.queries[q] + PlannedAfter(run, q)
  }

  /** Each query stores exactly the segments it uses, misses and is told to keep. */
  ghost predicate StoresItsMisses(run: Run, sizes: map<Key, nat>, maxSize: nat)
    requires |run.plan| == |run.queries| == |run.stores|
  {
    forall q | 0 <= q < |run.plan| :: QueryStoresItsMisses(run, sizes, maxSize, q)
  }

  ghost predicate QueryStoresItsMisses(run: Run, sizes: map<Key, nat>, maxSize: nat, q: nat)
    requires q < |run.plan| == |run.queries| == |run.stores|
  {
    && StoresOnce(run.stores[q], sizes)
    && StoredKeys(run.stores[q]) == (run.queries[q] * run.plan[q]) - CacheAfter(run, maxSize, q).keys.Keys
  }

  /** The bytes are exact and everything planned is there. */
  ghost predicate Follows(c: Cache, planned: set<Key>, sizes: map<Key, nat>, maxSize: nat) {
    Exact(c, sizes, maxSize) && planned <= c.keys.Keys
  }

  lemma EmptyFollows(sizes: map<Key, nat>, maxSize: nat)
    requires maxSize < TWO_TO_64
    ensures Follows(Cache(map[], maxSize), {}, sizes, maxSize)
  {
  }

  /** In every such run, in whatever order a query stores its segments, the cache never overfills
      and after each query holds everything planned for it. */
  lemma {:induction false} RunFollowsPlan(run: Run, sizes: map<Key, nat>, maxSize: nat, q: nat)
    requires maxSize < TWO_TO_64 && SoundPlan(run, sizes, maxSize) && StoresItsMisses(run, sizes, maxSize)
    requires q <= |run.plan|
    ensures Follows(CacheAfter(run, maxSize, q), PlannedAfter(run, q), sizes, maxSize)
    decreases q
  {
    if q == 0 {
      EmptyFollows(sizes, maxSize);
    } else {
      RunFollowsPlan(run, sizes, maxSize, q - 1);
      NextQueryFollowsPlan(run, sizes, maxSize, q - 1);
    }
  }

  lemma NextQueryFollowsPlan(run: Run, sizes: map<Key, nat>, maxSize: nat, i: nat)
    requires SoundPlan(run, sizes, maxSize) && StoresItsMisses(run, sizes, maxSize) && i < |run.plan|
    requires Follows(CacheAfter(run, maxSize, i), PlannedAfter(run, i), sizes, maxSize)
    ensures Follows(CacheAfter(run, maxSize, i + 1), run.plan[i], sizes, maxSize)
  {
    assert SoundDecision(run, sizes, maxSize, i) && QueryStoresItsMisses(run, sizes, maxSize, i);
    QueryReachesPlan(CacheAfter(run, maxSize, i), run.plan[i], run.queries[i], PlannedAfter(run, i),
                     sizes, maxSize, run.stores[i]);
  }

  lemma QueryReachesPlan(c: Cache, planned: set<Key>, queried: set<Key>, left: set<Key>,
                         sizes: map<Key, nat>, maxSize: nat, stores: seq<Store>)
    requires Exact(c, sizes, maxSize) && WithinBudget(planned, sizes, maxSize)
    requires planned <= queried + left && left <= c.keys.Keys
    requires StoresOnce(stores, sizes) && StoredKeys(stores) == queried * planned - c.keys.Keys
    ensures Exact(AfterStores(c, planned, maxSize, stores), sizes, maxSize)
    ensures planned <= AfterStores(c, planned, maxSize, stores).keys.Keys
  {
    assert StoredKeys(stores) <= planned - c.keys.Keys;
    StoresReachPlan(c, planned, sizes, maxSize, stores);
    MissedOrKept(planned, queried, left, c.keys.Keys);
  }

  lemma MissedOrKept(planned: set<Key>, queried: set<Key>, left: set<Key>, cached: set<Key>)
    requires planned <= queried + left && left <= cached
    ensures planned <= planned * cached + (queried * planned - cached)
  {
  }

  /** The hits predicted for a query from the plan of the one before it are a lower bound on the
      hits it really has. */
  lemma PredictedHitsAreReached(run: Run, sizes: map<Key, nat>, maxSize: nat, q: nat)
    requires maxSize < TWO_TO_64 && SoundPlan(run, sizes, maxSize) && StoresItsMisses(run, sizes, maxSize)
    requires 0 < q < |run.plan|
    ensures |run.queries[q] * run.plan[q - 1]| <= |run.queries[q] * CacheAfter(run, maxSize, q).keys.Keys|
  {
    RunFollowsPlan(run, sizes, maxSize, q);
    SubsetSize(run.queries[q] * run.plan[q - 1], run.queries[q] * CacheAfter(run, maxSize, q).keys.Keys);
  }

  // ---------------------------------------------------------------------------
  // The policy object

  ghost function WorthOf(uses: map<Key, set<nat>>, sizes: map<Key, nat>, candidates: set<Key>, q: nat): map<Key, Worth>
    requires candidates <= uses.Keys && candidates <= sizes.Keys
  {
    map k | k in candidates :: Worth(NextUse(uses[k], q), sizes[k])
  }

  /** `planned` is what the greedy pass over the ranked candidates of query `q` keeps. */
  ghost predicate PlannedFrom(planned: set<Key>, uses: map<Key, set<nat>>, sizes: map<Key, nat>, candidates: set<Key>, q: nat, room: nat) {
    && candidates <= uses.Keys && candidates <= sizes.Keys
    && exists order :: Ranks(order, WorthOf(uses, sizes, candidates, q))
                    && planned == Chosen(order, WorthOf(uses, sizes, candidates, q), room)
  }

  /** Everything planned was a candidate, is used again, and all of it together is within budget. */
  lemma PlannedIsSound(planned: set<Key>, uses: map<Key, set<nat>>, sizes: map<Key, nat>, candidates: set<Key>, q: nat, maxSize: nat)
    requires PlannedFrom(planned, uses, sizes, candidates, q, Budget(maxSize))
    ensures planned <= candidates && WithinBudget(planned, sizes, maxSize)
    ensures forall k | k in planned :: exists x | x in uses[k] :: x > q
  {
    var worth := WorthOf(uses, sizes, candidates, q);
    var order :| Ranks(order, worth) && planned == Chosen(order, worth, Budget(maxSize));
    ChosenFits(order, worth, Budget(maxSize));
    SumAgrees(planned, SizeOf(worth), Of(sizes));
    forall k | k in planned
      ensures exists x | x in uses[k] :: x > q
    {
      assert IsNextUse(uses[k], q, worth[k].nextUse) && worth[k].nextUse != -1;
    }
  }

  /** The keys that are in `planned`, in order. */
  ghost function Only(keys: seq<Key>, planned: set<Key>): seq<Key> {
    if keys == [] then []
    else
      var n := |keys| - 1;
      Only(keys[..n], planned) + if keys[n] in planned then [keys[n]] else []
  }

  /** Order and multiplicity: what is kept of two lists together is what is kept of each, and a single
      key is kept if it is planned. */
  lemma {:induction false} OnlyAppend(a: seq<Key>, b: seq<Key>, planned: set<Key>)
    ensures Only(a + b, planned) == Only(a, planned) + Only(b, planned)
    decreases |b|
  {
    if b == [] {
      assert a + b == a;
    } else {
      var n := |b| - 1;
      assert (a + b)[..|a + b| - 1] == a + b[..n];
      OnlyAppend(a, b[..n], planned);
    }
  }

  lemma OnlyOne(k: Key, planned: set<Key>)
    ensures Only([k], planned) == if k in planned then [k] else []
  {
    assert [k][..0] == [];
  }

  lemma {:induction false} OnlyPlanned(keys: seq<Key>, planned: set<Key>)
    ensures Elements(Only(keys, planned)) == Elements(keys) * planned
    decreases |keys|
  {
    if keys != [] {
      var n := |keys| - 1;
      OnlyPlanned(keys[..n], planned);
      assert keys == keys[..n] + [keys[n]];
      ElementsAppend(keys[..n], keys[n]);
      ElementsAppend(Only(keys[..n], planned), keys[n]);
      assert keys[n] !in planned ==> Only(keys, planned) == Only(keys[..n], planned);
    }
  }

  /** The planned keys that are worth at least as much as `k`. */
  ghost function AsValuable(planned: set<Key>, worth: map<Key, Worth>, k: Key): set<Key>
    requires k in worth
  {
    set p | p in planned && p in worth && !Less(worth[p], worth[k])
  }

  /** Greedy maximality of a decision: a candidate that is used again and was left out does not fit
      beside the planned ones that are worth at least as much. */
  lemma LeftOutDidNotFit(plan: map<nat, set<Key>>, queries: map<nat, set<Key>>, uses: map<Key, set<nat>>,
                         sizes: map<Key, nat>, maxSize: nat, q: nat, k: Key)
    requires PlannedAt(plan, queries, uses, sizes, maxSize, q)
    requires k in queries[q] + Before(plan, q) && k !in plan[q] && exists x | x in uses[k] :: x > q
    ensures var worth := WorthOf(uses, sizes, queries[q] + Before(plan, q), q);
            sizes[k] + Sum(AsValuable(plan[q], worth, k), Of(sizes)) >= Budget(maxSize)
  {
    var worth := WorthOf(uses, sizes, queries[q] + Before(plan, q), q);
    var order :| Ranks(order, worth) && plan[q] == Chosen(order, worth, Budget(maxSize));
    assert k in Elements(order);
    var i :| 0 <= i < |order| && order[i] == k;
    assert IsNextUse(uses[k], q, worth[k].nextUse);
    RejectedDidNotFit(order, worth, Budget(maxSize), i);
    AboveIsAsValuable(order, worth, plan[q], i, sizes);
  }

  /** The point of Belady: no segment is planned in place of one that is no larger and used again
      earlier. */
  lemma PlannedIsUsedNoLater(plan: map<nat, set<Key>>, queries: map<nat, set<Key>>, uses: map<Key, set<nat>>,
                             sizes: map<Key, nat>, maxSize: nat, q: nat, p: Key, k: Key, usedP: nat, usedK: nat)
    requires PlannedAt(plan, queries, uses, sizes, maxSize, q)
    requires p in plan[q] && k in queries[q] + Before(plan, q) && k !in plan[q]
    requires p in uses && IsNextUse(uses[p], q, usedP) && IsNextUse(uses[k], q, usedK)
    ensures p in sizes && (sizes[k] <= sizes[p] ==> usedP <= usedK)
  {
    var worth := WorthOf(uses, sizes, queries[q] + Before(plan, q), q);
    var order :| Ranks(order, worth) && plan[q] == Chosen(order, worth, Budget(maxSize));
    assert k in Elements(order);
    NextUseIsUnique(uses[k], q, usedK, worth[k].nextUse);
    ChosenIsUsedNoLater(order, worth, Budget(maxSize), p, k);
    NextUseIsUnique(uses[p], q, usedP, worth[p].nextUse);
  }

  lemma AboveIsAsValuable(order: seq<Key>, worth: map<Key, Worth>, planned: set<Key>, i: nat, sizes: map<Key, nat>)
    requires Ranks(order, worth) && i < |order|
    requires forall k | k in worth :: k in sizes && worth[k].size == sizes[k]
    ensures Sum(planned * Elements(order[..i]), SizeOf(worth)) <= Sum(AsValuable(planned, worth, order[i]), Of(sizes))
  {
    var above, all := planned * Elements(order[..i]), AsValuable(planned, worth, order[i]);
    forall p | p in above
      ensures p in all
    {
      var j :| 0 <= j < i && order[j] == p;
      assert p in order;
    }
    SumSplit(all, above, Of(sizes));
    SumAgrees(above, SizeOf(worth), Of(sizes));
  }

  /** What was planned for the query before `q`. */
  ghost function Before(plan: map<nat, set<Key>>, q: nat): set<Key> {
    if q > 1 && q - 1 in plan then plan[q - 1] else {}
  }

  /** The decision for query `q` is the greedy choice among the keys it uses and those planned
      for the query before it. */
  ghost predicate PlannedAt(plan: map<nat, set<Key>>, queries: map<nat, set<Key>>, uses: map<Key, set<nat>>,
                            sizes: map<Key, nat>, maxSize: nat, q: nat)
  {
    && q in plan && q in queries
    && PlannedFrom(plan[q], uses, sizes, queries[q] + Before(plan, q), q, Budget(maxSize))
  }

  ghost predicate PlannedUpTo(plan: map<nat, set<Key>>, queries: map<nat, set<Key>>, uses: map<Key, set<nat>>,
                              sizes: map<Key, nat>, maxSize: nat, n: nat)
  {
    && (forall q | q in plan :: q <= n)
    && (forall q | 1 <= q <= n :: PlannedAt(plan, queries, uses, sizes, maxSize, q))
  }

  lemma PlannedIsKnown(plan: map<nat, set<Key>>, queries: map<nat, set<Key>>, uses: map<Key, set<nat>>,
                       sizes: map<Key, nat>, maxSize: nat, n: nat)
    requires PlannedUpTo(plan, queries, uses, sizes, maxSize, n)
    ensures forall q | 1 <= q <= n :: q in queries && queries[q] <= sizes.Keys
  {
    forall q | 1 <= q <= n
      ensures q in queries && queries[q] <= sizes.Keys
    {
      assert PlannedAt(plan, queries, uses, sizes, maxSize, q);
    }
  }

  /** `emplace` keeps an entry that is there. */
  ghost function Emplaced(plan: map<nat, set<Key>>, q: nat, planned: set<Key>): map<nat, set<Key>> {
    if q in plan then plan else plan[q := planned]
  }

  lemma EmplacedMerges(decided: map<nat, set<Key>>, plan: map<nat, set<Key>>, q: nat, planned: set<Key>)
    requires q !in decided
    ensures Emplaced(decided + plan, q, planned) == decided[q := planned] + plan
  {
  }

  /** Planning a query leaves the earlier decisions alone. */
  lemma PlanGrows(plan: map<nat, set<Key>>, queries: map<nat, set<Key>>, uses: map<Key, set<nat>>,
                  sizes: map<Key, nat>, maxSize: nat, q: nat, planned: set<Key>)
    requires q > 0 && PlannedUpTo(plan, queries, uses, sizes, maxSize, q - 1) && q in queries
    requires PlannedFrom(planned, uses, sizes, queries[q] + Before(plan, q), q, Budget(maxSize))
    ensures PlannedUpTo(plan[q := planned], queries, uses, sizes, maxSize, q)
  {
    var plan' := plan[q := planned];
    forall x | 1 <= x <= q
      ensures PlannedAt(plan', queries, uses, sizes, maxSize, x)
    {
      assert x < q ==> PlannedAt(plan, queries, uses, sizes, maxSize, x);
      assert Before(plan', x) == Before(plan, x);
    }
  }

  /** The plan as the seq a run refers to: what was decided for queries 1, 2, ... */
  ghost predicate RunsPlan(run: Run, plan: map<nat, set<Key>>, queries: map<nat, set<Key>>) {
    && |run.plan| == |run.queries| == |run.stores|
    && (forall q | 0 <= q < |run.plan| :: q + 1 in plan && run.plan[q] == plan[q + 1])
    && (forall q | 0 <= q < |run.queries| :: q + 1 in queries && run.queries[q] == queries[q + 1])
  }

  /** What the generator decides is a plan every run can follow. */
  lemma GeneratedPlanIsSound(run: Run, plan: map<nat, set<Key>>, queries: map<nat, set<Key>>, uses: map<Key, set<nat>>,
                             sizes: map<Key, nat>, maxSize: nat)
    requires RunsPlan(run, plan, queries)
    requires PlannedUpTo(plan, queries, uses, sizes, maxSize, |run.plan|)
    ensures SoundPlan(run, sizes, maxSize)
  {
    forall q | 0 <= q < |run.plan|
      ensures SoundDecision(run, sizes, maxSize, q)
    {
      assert PlannedAt(plan, queries, uses, sizes, maxSize, q + 1);
      assert q > 0 ==> PlannedAfter(run, q) == run.plan[q - 1] == Before(plan, q + 1);
      PlannedIsSound(plan[q + 1], uses, sizes, queries[q + 1] + Before(plan, q + 1), q + 1, maxSize);
    }
  }

  /** The loop that removes what should not be there after this query, and gives the bytes back. */
  method Evict(keys: map<Key, nat>, freeSize: nat, planned: set<Key>)
    returns (kept: map<Key, nat>, free: nat, removed: seq<Key>)
    requires freeSize + Total(keys) < TWO_TO_64
    ensures kept == Kept(keys, planned)
    ensures free + Total(kept) == freeSize + Total(keys)
    ensures Elements(removed) == keys.Keys - planned
  {
    kept, free, removed := keys, freeSize, [];
    var todo := keys.Keys;
    EvictNone(keys, freeSize, planned);
    while todo != {}
      invariant Evicting(keys, freeSize, planned, todo, kept, free, removed)
      decreases |todo|
    {
      var k :| k in todo;
      EvictOne(keys, freeSize, planned, todo, kept, free, removed, k);
      if k !in planned {
        removed := removed + [k];
        free := Wrap64(free + kept[k]);
        kept := kept - {k};
      }
      todo := todo - {k};
    }
    EvictedAll(keys, freeSize, planned, kept, free, removed);
  }

  lemma EvictNone(keys: map<Key, nat>, freeSize: nat, planned: set<Key>)
    ensures Evicting(keys, freeSize, planned, keys.Keys, keys, freeSize, [])
  {
    assert Kept(keys, planned + keys.Keys) == keys;
  }

  lemma EvictedAll(keys: map<Key, nat>, freeSize: nat, planned: set<Key>, kept: map<Key, nat>, free: nat, removed: seq<Key>)
    requires Evicting(keys, freeSize, planned, {}, kept, free, removed)
    ensures kept == Kept(keys, planned) && Elements(removed) == keys.Keys - planned
  {
    assert planned + {} == planned;
  }

  /** The state of the eviction loop with the keys `todo` still to visit. */
  ghost predicate Evicting(keys: map<Key, nat>, freeSize: nat, planned: set<Key>, todo: set<Key>,
                           kept: map<Key, nat>, free: nat, removed: seq<Key>)
  {
    && todo <= keys.Keys && kept == Kept(keys, planned + todo)
    && free + Total(kept) == freeSize + Total(keys)
    && Elements(removed) == keys.Keys - planned - todo
  }

  lemma EvictOne(keys: map<Key, nat>, freeSize: nat, planned: set<Key>, todo: set<Key>,
                 kept: map<Key, nat>, free: nat, removed: seq<Key>, k: Key)
    requires Evicting(keys, freeSize, planned, todo, kept, free, removed) && k in todo
    requires freeSize + Total(keys) < TWO_TO_64
    ensures k in kept && Wrap64(free + kept[k]) == free + kept[k]
    ensures k in planned ==> Evicting(keys, freeSize, planned, todo - {k}, kept, free, removed)
    ensures k !in planned ==> Evicting(keys, freeSize, planned, todo - {k}, kept - {k}, free + kept[k], removed + [k])
  {
    KeptLess(keys, planned, todo, k);
    VisitedMore(keys.Keys, planned, todo, k);
    ElementsAppend(removed, k);
    TotalRemove(kept, k);
  }

  datatype StoreResult = Rejected | Stored(removed: seq<Key>) | Threw

  class BeladyCachingPolicy {
    const maxSize: nat
    const sizes: map<Key, nat>
    const helper: BeladyCachingPolicyHelper
    var plan: map<nat, set<Key>>
    var keysInCache: map<Key, nat>
    var freeSize: nat

    ghost function State(): Cache
      reads this
    {
      Cache(keysInCache, freeSize)
    }

    ghost predicate Valid()
      reads this, helper
    {
      && Inverse(helper.queries, helper.uses)
      && Exact(State(), sizes, maxSize)
      && forall q | q in plan :: WithinBudget(plan[q], sizes, maxSize)
    }

    constructor (maxSize: nat, sizes: map<Key, nat>, helper: BeladyCachingPolicyHelper)
      requires maxSize < TWO_TO_64 && Inverse(helper.queries, helper.uses)
      ensures Valid() && plan == map[] && keysInCache == map[]
      ensures this.maxSize == maxSize && this.sizes == sizes && this.helper == helper
    {
      this.maxSize, this.sizes, this.helper := maxSize, sizes, helper;
      plan, keysInCache, freeSize := map[], map[], maxSize;
    }

    // ----- planning -----

    /** The next use and the size of every candidate; `None` if a size is unknown. */
    method Appraise(candidates: set<Key>, q: nat) returns (r: Option<map<Key, Worth>>)
      requires candidates <= helper.uses.Keys
      ensures r.Some? <==> candidates <= sizes.Keys
      ensures r.Some? ==> r.value == WorthOf(helper.uses, sizes, candidates, q)
    {
      var todo, worth := candidates, map[];
      while todo != {}
        invariant todo <= candidates && candidates - todo <= sizes.Keys
        invariant worth == WorthOf(helper.uses, sizes, candidates - todo, q)
        decreases |todo|
      {
        var k :| k in todo;
        if k !in sizes {
          return None;
        }
        var next := helper.QuerySegmentNextUsedIn(k, q);
        worth := worth[k := Worth(next.value, sizes[k])];
        assert candidates - (todo - {k}) == candidates - todo + {k};
        todo := todo - {k};
      }
      assert candidates - todo == candidates;
      return Some(worth);
    }

    /** The greedy loop. */
    method Choose(order: seq<Key>, worth: map<Key, Worth>, budget: nat) returns (chosen: set<Key>)
      requires forall k | k in order :: k in worth
      ensures chosen == Chosen(order, worth, budget)
    {
      chosen := {};
      var remaining := budget;
      for i := 0 to |order|
        invariant chosen + Chosen(order[i..], worth, remaining) == Chosen(order, worth, budget)
      {
        var k := order[i];
        assert order[i..][0] == k && order[i..][1..] == order[i + 1..];
        if worth[k].size < remaining && worth[k].nextUse != -1 {
          chosen := chosen + {k};
          remaining := remaining - worth[k].size;
        }
      }
      assert order[|order|..] == [];
    }

    /** One turn of the planning loop; `None` means it threw. */
    method PlanQuery(cached: set<Key>, q: nat) returns (r: Option<set<Key>>)
      requires Inverse(helper.queries, helper.uses) && cached <= helper.uses.Keys && cached <= sizes.Keys
      ensures r.Some? <==> q in helper.queries && helper.queries[q] <= sizes.Keys
      ensures r.Some? ==> PlannedFrom(r.value, helper.uses, sizes, helper.queries[q] + cached, q, Budget(maxSize))
    {
      if q !in helper.queries {
        return None;
      }
      var candidates := helper.queries[q] + cached;
      QueriedIsUsed(helper.queries, helper.uses, q);
      assert candidates <= sizes.Keys <==> helper.queries[q] <= sizes.Keys;
      var worth := Appraise(candidates, q);
      if worth == None {
        return None;
      }
      var order := SortDescending(worth.value);
      var chosen := Choose(order, worth.value, Budget(maxSize));
      return Some(chosen);
    }

    /** `generateCacheDecisions`; false means it threw, because a query was not announced or a
        segment's size is unknown. Decisions of an earlier call stay as they are. */
    method GenerateCacheDecisions(numQueries: nat) returns (ok: bool, ghost decided: map<nat, set<Key>>)
      requires Valid()
      modifies this`plan, helper`currentQuery
      ensures Valid()
      ensures ok <==> forall q | 1 <= q <= numQueries :: q in helper.queries && helper.queries[q] <= sizes.Keys
      ensures ok ==> PlannedUpTo(decided, helper.queries, helper.uses, sizes, maxSize, numQueries)
      ensures plan == decided + old(plan)
    {
      var cached: set<Key> := {};
      decided := map[];
      for q := 1 to numQueries + 1
        invariant helper.queries == old(helper.queries) && helper.uses == old(helper.uses)
        invariant Deciding(cached, q, decided) && plan == decided + old(plan)
      {
        var planned := DecideQuery(cached, q, decided);
        if planned == None {
          ok := false;
          return;
        }
        EmplacedMerges(decided, old(plan), q, planned.value);
        cached := planned.value;
        decided := decided[q := cached];
      }
      PlannedIsKnown(decided, helper.queries, helper.uses, sizes, maxSize, numQueries);
      ok := true;
    }

    /** The state of the loop before query `q`, with the decisions `decided` so far. */
    ghost predicate Deciding(cached: set<Key>, q: nat, decided: map<nat, set<Key>>)
      reads this, helper
    {
      && Valid() && q > 0 && cached == Before(decided, q) && cached <= helper.uses.Keys && cached <= sizes.Keys
      && PlannedUpTo(decided, helper.queries, helper.uses, sizes, maxSize, q - 1)
    }

    /** One turn of the loop. */
    method DecideQuery(cached: set<Key>, q: nat, ghost decided: map<nat, set<Key>>) returns (r: Option<set<Key>>)
      requires Deciding(cached, q, decided)
      modifies this`plan, helper`currentQuery
      ensures Valid()
      ensures r.Some? <==> q in helper.queries && helper.queries[q] <= sizes.Keys
      ensures r.Some? ==> Deciding(r.value, q + 1, decided[q := r.value])
      ensures plan == if r.Some? then Emplaced(old(plan), q, r.value) else old(plan)
    {
      helper.currentQuery := q;
      r := PlanQuery(cached, q);
      if r.Some? {
        PlannedIsSound(r.value, helper.uses, sizes, helper.queries[q] + cached, q, maxSize);
        PlanGrows(decided, helper.queries, helper.uses, sizes, maxSize, q, r.value);
        if q !in plan {
          plan := plan[q := r.value];
        }
      }
    }

    // ----- running -----

    method OnToCache(q: nat, keys: seq<Key>) returns (r: Option<seq<Key>>)
      ensures r.None? <==> q !in plan
      ensures r.Some? ==> r.value == Only(keys, plan[q])
    {
      if q !in plan {
        return None;
      }
      var chosen := [];
      for i := 0 to |keys|
        invariant chosen == Only(keys[..i], plan[q])
      {
        assert keys[..i + 1][..i] == keys[..i];
        if keys[i] in plan[q] {
          chosen := chosen + [keys[i]];
        }
      }
      assert keys[..|keys|] == keys;
      return Some(chosen);
    }

    /** Stores a planned segment of an accepted size. */
    method Bring(key: Key, actual: nat, planned: set<Key>) returns (removed: seq<Key>)
      requires Exact(State(), sizes, maxSize) && key !in keysInCache && key in planned && actual <= maxSize
      modifies this`keysInCache, this`freeSize
      ensures State() == AfterStore(old(State()), planned, maxSize, key, actual)
      ensures keysInCache.Keys == old(keysInCache).Keys - Elements(removed) + {key} && Elements(removed) <= old(keysInCache).Keys
      ensures Elements(removed) !! planned && key in keysInCache && keysInCache[key] == actual
      ensures actual < old(freeSize) ==> removed == []
      ensures actual >= old(freeSize) ==> Elements(removed) == old(keysInCache).Keys - planned
    {
      removed := [];
      if actual < freeSize {
        keysInCache := keysInCache[key := actual];
        freeSize := Wrap64(freeSize - actual);
      } else {
        var kept, free;
        kept, free, removed := Evict(keysInCache, freeSize, planned);
        assert kept.Keys == keysInCache.Keys - Elements(removed);
        keysInCache := kept[key := actual];
        freeSize := Wrap64(free - actual);
      }
    }

    method OnStore(key: Key, actual: nat) returns (r: StoreResult)
      requires Valid() && key !in keysInCache
      modifies this`keysInCache, this`freeSize
      ensures r.Threw? <==> key !in sizes || !AcceptsSize(actual, sizes[key])
                            || (actual <= maxSize && helper.currentQuery !in plan)
      ensures !r.Stored? ==> State() == old(State())
      ensures r.Stored? <==> !r.Threw? && actual <= maxSize && key in plan[helper.currentQuery]
      ensures r.Stored? ==> State() == AfterStore(old(State()), plan[helper.currentQuery], maxSize, key, actual)
      ensures r.Stored? ==> keysInCache.Keys == old(keysInCache).Keys - Elements(r.removed) + {key}
      ensures r.Stored? ==> Elements(r.removed) <= old(keysInCache).Keys - plan[helper.currentQuery]
      ensures r.Stored? && actual < old(freeSize) ==> r.removed == []
      ensures r.Stored? && actual >= old(freeSize) ==> Elements(r.removed) == old(keysInCache).Keys - plan[helper.currentQuery]
      ensures r.Stored? ==> keysInCache[key] == actual
      ensures Valid() <==> (r.Stored? ==> 99 * actual <= 100 * sizes[key])
    {
      if key !in sizes {
        return Threw;
      }
      if Abs(Truncated(actual - sizes[key])) > actual / 100 {
        return Threw;
      }
      if maxSize < actual {
        return Rejected;
      }
      if helper.currentQuery !in plan {
        return Threw;
      }
      if key !in plan[helper.currentQuery] {
        return Rejected;
      }
      if 99 * actual <= 100 * sizes[key] {
        StoreKeepsExact(State(), plan[helper.currentQuery], sizes, maxSize, key, actual);
      }
      var removed := Bring(key, actual, plan[helper.currentQuery]);
      return Stored(removed);
    }

    /** Throws exactly when a planned key is missing. */
    method CompareExpectedCachedKeysToActual(q: nat) returns (threw: bool)
      ensures threw <==> q !in plan || !(plan[q] <= keysInCache.Keys)
    {
      if q !in plan {
        return true;
      }
      threw := false;
      var todo := plan[q];
      while todo != {}
        invariant todo <= plan[q]
        invariant threw <==> !(plan[q] - todo <= keysInCache.Keys)
        decreases |todo|
      {
        var k :| k in todo;
        if k !in keysInCache {
          threw := true;
        }
        assert plan[q] - (todo - {k}) == plan[q] - todo + {k};
        todo := todo - {k};
      }
      assert plan[q] - todo == plan[q];
    }
  }

  lemma KeptLess(keys: map<Key, nat>, planned: set<Key>, todo: set<Key>, k: Key)
    requires k in todo && k in keys
    ensures k in planned ==> Kept(keys, planned + (todo - {k})) == Kept(keys, planned + todo)
    ensures k !in planned ==> Kept(keys, planned + (todo - {k})) == Kept(keys, planned + todo) - {k}
    ensures k in Kept(keys, planned + todo)
  {
  }

  lemma VisitedMore<T>(all: set<T>, planned: set<T>, todo: set<T>, k: T)
    requires k in todo && todo <= all
    ensures k in planned ==> all - planned - (todo - {k}) == all - planned - todo
    ensures k !in planned ==> all - planned - (todo - {k}) == all - planned - todo + {k}
  {
  }

  lemma QueriedIsUsed(queries: map<nat, set<Key>>, uses: map<Key, set<nat>>, q: nat)
    requires Inverse(queries, uses) && q in queries
    ensures queries[q] <= uses.Keys
  {
  }
}
