/** Whether LFU evicts the least frequently used keys. The search begins at `minFreq_`, which the code
    does not always keep at the least hit number in use. */
module LfuOrder {
  import opened Collections
  import opened Segments
  import opened Sums
  import opened LfuPolicy

  // ---------------------------------------------------------------------------
  // The order of the search

  /** `a` comes before `b`: `minFreq_` first, then by hits, and by age among equals. */
  ghost predicate Before(buckets: Buckets, place: map<Key, nat>, minFreq: nat, a: Key, b: Key) {
    && a in place && b in place
    && (place[a] == minFreq || (place[b] != minFreq && place[a] <= place[b]))
    && (place[a] == place[b] ==> InListOrder(ListAt(buckets, place[a]), a, b))
  }

  ghost predicate InListOrder(list: seq<Key>, a: Key, b: Key) {
    exists i, j | 0 <= i < j < |list| :: list[i] == a && list[j] == b
  }

  lemma PlaceInBucket(buckets: Buckets, iterators: map<Key, nat>, place: map<Key, nat>, f: nat, i: nat)
    requires Indexed(buckets, iterators, place) && f in buckets && i < |buckets[f]|
    ensures var k := KeySeq(buckets[f])[i]; k in place && place[k] == f
  {
    assert BucketOk(buckets[f], f, iterators, place);
    assert NodeOk(buckets[f][i], f, iterators, place);
  }

  lemma PlaceInTail(buckets: Buckets, iterators: map<Key, nat>, place: map<Key, nat>, rest: set<nat>, f: nat, i: nat)
    requires Indexed(buckets, iterators, place) && rest <= buckets.Keys && f in rest && i < |SearchOrder(buckets, rest, f)|
    ensures var k := SearchOrder(buckets, rest, f)[i]; k in place && place[k] in rest
  {
    OrderListsKeys(buckets, iterators, place, rest, f);
    assert SearchOrder(buckets, rest, f)[i] in Elements(SearchOrder(buckets, rest, f));
  }

  lemma {:induction false} OrderedFrom(buckets: Buckets, iterators: map<Key, nat>, place: map<Key, nat>, rest: set<nat>, f: nat,
                                       i: nat, j: nat)
    requires Indexed(buckets, iterators, place) && rest <= buckets.Keys && f in rest && i < j < |SearchOrder(buckets, rest, f)|
    ensures var order := SearchOrder(buckets, rest, f); Before(buckets, place, f, order[i], order[j])
    decreases rest
  {
    var order, head, rest' := SearchOrder(buckets, rest, f), KeySeq(buckets[f]), rest - {f};
    if i < |head| {
      PlaceInBucket(buckets, iterators, place, f, i);
      PlaceInTail(buckets, iterators, place, rest, f, j);
      if j < |head| {
        assert head[i] == order[i] && head[j] == order[j];
      } else {
        PlaceInTail(buckets, iterators, place, rest', LeastOf(rest'), j - |head|);
      }
    } else {
      var g := LeastOf(rest');
      assert order[i] == SearchOrder(buckets, rest', g)[i - |head|] && order[j] == SearchOrder(buckets, rest', g)[j - |head|];
      OrderedFrom(buckets, iterators, place, rest', g, i - |head|, j - |head|);
      PlaceInTail(buckets, iterators, place, rest', g, i - |head|);
      PlaceInTail(buckets, iterators, place, rest', g, j - |head|);
    }
  }

  /** The order in which a store looks at the cached keys. */
  lemma SearchedInOrder(x: Index, place: map<Key, nat>, nextId: nat, i: nat, j: nat)
    requires IndexOk(x, place, nextId) && i < j < |Order(x)|
    ensures Before(x.buckets, place, x.minFreq, Order(x)[i], Order(x)[j])
  {
    OrderedFrom(x.buckets, x.iterators, place, x.freqSet, x.minFreq, i, j);
  }

  ghost predicate Ascends(order: seq<Key>, place: map<Key, nat>) {
    && (forall i | 0 <= i < |order| :: order[i] in place)
    && forall i, j | 0 <= i < j < |order| :: place[order[i]] <= place[order[j]]
  }

  /** Keys are looked at by ascending hits exactly while `minFreq_` is the least hit number. */
  lemma AscendsExactly(x: Index, place: map<Key, nat>, nextId: nat)
    requires IndexOk(x, place, nextId) && x.freqSet != {}
    ensures Ascends(Order(x), place) <==> IsLeast(x.minFreq, x.freqSet)
  {
    var order := Order(x);
    forall i | 0 <= i < |order|
      ensures order[i] in place && place[order[i]] in x.freqSet
    {
      PlaceInTail(x.buckets, x.iterators, place, x.freqSet, x.minFreq, i);
    }
    if IsLeast(x.minFreq, x.freqSet) {
      forall i, j | 0 <= i < j < |order|
        ensures place[order[i]] <= place[order[j]]
      {
        SearchedInOrder(x, place, nextId, i, j);
      }
    } else {
      var g :| g in x.freqSet && g < x.minFreq;
      LaterInOrder(x, place, nextId, g);
    }
  }

  /** A hit number other than `minFreq_` comes after the first key. */
  lemma LaterInOrder(x: Index, place: map<Key, nat>, nextId: nat, g: nat)
    requires IndexOk(x, place, nextId) && g in x.freqSet && g != x.minFreq
    ensures Order(x) != [] && Order(x)[0] in place && place[Order(x)[0]] == x.minFreq
    ensures exists j | 0 < j < |Order(x)| :: Order(x)[j] in place && place[Order(x)[j]] == g
  {
    var order := Order(x);
    assert BucketOk(x.buckets[x.minFreq], x.minFreq, x.iterators, place) && BucketOk(x.buckets[g], g, x.iterators, place);
    PlaceInBucket(x.buckets, x.iterators, place, x.minFreq, 0);
    assert order[0] == KeySeq(x.buckets[x.minFreq])[0];
    PlaceInBucket(x.buckets, x.iterators, place, g, 0);
    var k := KeySeq(x.buckets[g])[0];
    OrderListsAll(x, place, nextId);
    assert k in Elements(order);
    var j :| 0 <= j < |order| && order[j] == k;
  }

  /** The search begins with the least frequently used keys. */
  ghost predicate LeastFirst(x: Index) {
    x.freqSet == {} || IsLeast(x.minFreq, x.freqSet)
  }

  // ---------------------------------------------------------------------------
  // What a store then decides

  /** The cached keys with fewer hits. */
  ghost function FewerHits(cached: set<Key>, known: map<Key, Meta>, hits: nat): set<Key> {
    set k | k in cached && k in known && known[k].hitNum < hits
  }

  /** While `minFreq_` is the least hit number, what is evicted has no more hits than what stays. */
  lemma EvictsLeastUsed(x: Index, place: map<Key, nat>, nextId: nat, removed: seq<Key>, gone: Key, kept: Key)
    requires IndexOk(x, place, nextId) && IsLeast(x.minFreq, x.freqSet) && removed <= Order(x)
    requires gone in removed && kept in x.iterators && kept !in removed
    ensures gone in place && kept in place && place[gone] <= place[kept]
  {
    OrderListsAll(x, place, nextId);
    AscendsExactly(x, place, nextId);
    assert kept in Elements(Order(x));
    PrefixIsLess(Order(x), place, removed, gone, kept);
  }

  lemma PrefixIsLess(order: seq<Key>, place: map<Key, nat>, removed: seq<Key>, gone: Key, kept: Key)
    requires Ascends(order, place) && removed <= order && gone in removed && kept in order && kept !in removed
    ensures gone in place && kept in place && place[gone] <= place[kept]
  {
    var i :| 0 <= i < |removed| && removed[i] == gone;
    var j :| 0 <= j < |order| && order[j] == kept;
    assert order[i] == gone && removed == order[..|removed|];
  }

  /** While `minFreq_` is the least hit number, a segment that fits the cache is rejected exactly if all
      keys with fewer hits would not make room for it. */
  lemma RejectsExactly(x: Index, x': Index, place: map<Key, nat>, nextId: nat, known: map<Key, Meta>, free: nat, free': nat,
                       k: Key, maxSize: nat, r: StoreResult)
    requires Ok(x, place, nextId, known, free, maxSize) && k in known && known[k].size <= maxSize
    requires LeastFirst(x) && Outcome(x, x', known, free, free', k, maxSize, r)
    ensures r.Rejected? <==> free + Sum(FewerHits(x.iterators.Keys, known, known[k].hitNum), SizeIn(known)) < known[k].size
  {
    var size, hits := known[k].size, known[k].hitNum;
    var fewer := FewerHits(x.iterators.Keys, known, hits);
    if r.Rejected? {
      var n :| Stops(Order(x), n, known, free, size, hits);
      assert x.freqSet != {};
      StoppedAfterAllFewer(x, place, nextId, known, free, size, hits, n);
    } else if r.Stored? {
      assert Elements(r.removed) <= fewer;
      SumSplit(fewer, Elements(r.removed), SizeIn(known));
    } else {
      assert fewer == x.iterators.Keys;
    }
  }

  lemma StoppedAfterAllFewer(x: Index, place: map<Key, nat>, nextId: nat, known: map<Key, Meta>, free: nat, size: nat, hits: nat, n: nat)
    requires IndexOk(x, place, nextId) && PlacedByHits(place, known) && IsLeast(x.minFreq, x.freqSet)
    requires Stops(Order(x), n, known, free, size, hits)
    ensures FewerHits(x.iterators.Keys, known, hits) == Elements(Order(x)[..n])
  {
    OrderListsAll(x, place, nextId);
    AscendsExactly(x, place, nextId);
    FewerComeFirst(Order(x), place, known, x.iterators.Keys, hits, n);
  }

  lemma FewerComeFirst(order: seq<Key>, place: map<Key, nat>, known: map<Key, Meta>, cached: set<Key>, hits: nat, n: nat)
    requires Ascends(order, place) && PlacedByHits(place, known) && Elements(order) == cached && n < |order|
    requires order[n] in known && known[order[n]].hitNum >= hits && AllLess(Elements(order[..n]), known, hits)
    ensures FewerHits(cached, known, hits) == Elements(order[..n])
  {
    forall k | k in FewerHits(cached, known, hits)
      ensures k in order[..n]
    {
      var j :| 0 <= j < |order| && order[j] == k;
      assert j < n;
      assert order[..n][j] == k;
    }
    forall k | k in order[..n]
      ensures k in FewerHits(cached, known, hits)
    {
      assert k in Elements(order[..n]) && k in order;
    }
  }

  // ---------------------------------------------------------------------------
  // When `minFreq_` stays the least hit number

  lemma ListedExactly(x: Index, place: map<Key, nat>, nextId: nat, g: nat, k: Key)
    requires IndexOk(x, place, nextId)
    ensures k in ListAt(x.buckets, g) <==> k in x.iterators && place[k] == g
  {
    if g in x.buckets {
      BucketLists(x.buckets, x.iterators, place, g);
      assert k in ListAt(x.buckets, g) <==> k in Elements(KeySeq(x.buckets[g]));
    } else if k in x.iterators {
      assert Placed(x.buckets, place, k);
    }
  }

  lemma ListedInUse(x: Index, place: map<Key, nat>, nextId: nat, g: nat)
    requires IndexOk(x, place, nextId)
    ensures g in x.freqSet <==> ListAt(x.buckets, g) != []
  {
    if g in x.buckets {
      assert BucketOk(x.buckets[g], g, x.iterators, place);
    }
  }

  /** A hit number is left exactly if one of its keys is. */
  lemma LeftExactly(x: Index, place: map<Key, nat>, nextId: nat, gone: set<Key>, left: set<nat>, g: nat)
    requires IndexOk(x, place, nextId) && LeftBy(x.buckets, gone, left)
    ensures g in left <==> exists l | l in x.iterators && l !in gone :: l in place && place[l] == g
  {
    var list := ListAt(x.buckets, g);
    if g in left {
      var l := Drop(list, gone)[0];
      DropHas(list, gone, l);
      ListedExactly(x, place, nextId, g, l);
    }
    if l :| l in x.iterators && l !in gone && l in place && place[l] == g {
      ListedExactly(x, place, nextId, g, l);
      DropHas(list, gone, l);
    }
  }

  /** After `gone` have left and a key with `f` hits has come, the hit numbers in use are those left
      and `f`. */
  lemma InUseAfter(x: Index, x': Index, place': map<Key, nat>, nextId': nat, gone: set<Key>, k: Key, f: nat, left: set<nat>)
    requires IndexOk(x', place', nextId') && Replaced(x, x', gone, k, f) && LeftBy(x.buckets, gone, left)
    ensures x'.freqSet == left + {f}
  {
    forall g
      ensures g in x'.freqSet <==> g in left || g == f
    {
      ListedInUse(x', place', nextId', g);
    }
  }

  /** A load or a store leaves `minFreq_` least exactly if it comes to an empty cache or some key that
      stays has no more hits than the one that comes. */
  lemma LeastAfterExactly(x: Index, x': Index, place: map<Key, nat>, place': map<Key, nat>, nextId: nat, nextId': nat,
                          gone: set<Key>, k: Key, f: nat)
    requires IndexOk(x, place, nextId) && IndexOk(x', place', nextId') && LeastFirst(x)
    requires Replaced(x, x', gone, k, f)
    ensures LeastFirst(x') <==> x.iterators.Keys <= gone
                                || exists l | l in x.iterators && l !in gone :: l in place && place[l] <= f
  {
    var left :| LeftBy(x.buckets, gone, left) && MinReplaced(x.minFreq, left, f, x'.minFreq);
    InUseAfter(x, x', place', nextId', gone, k, f, left);
    LeftIsInUse(x, place, nextId, gone, left);
    LeastOfMore(x.minFreq, x.freqSet, left, f, x'.minFreq);
    NothingLeft(x, place, nextId, gone, left);
    LowLeft(x, place, nextId, gone, left, f);
  }

  lemma LeastOfMore(minFreq: nat, freqs: set<nat>, left: set<nat>, f: nat, minFreq': nat)
    requires (freqs == {} || IsLeast(minFreq, freqs)) && left <= freqs && MinReplaced(minFreq, left, f, minFreq')
    ensures IsLeast(minFreq', left + {f}) <==> left == {} || exists g | g in left :: g <= f
  {
  }

  lemma NothingLeft(x: Index, place: map<Key, nat>, nextId: nat, gone: set<Key>, left: set<nat>)
    requires IndexOk(x, place, nextId) && LeftBy(x.buckets, gone, left)
    ensures left == {} <==> x.iterators.Keys <= gone
  {
    if l :| l in x.iterators && l !in gone {
      LeftExactly(x, place, nextId, gone, left, place[l]);
    }
    if g :| g in left {
      LeftExactly(x, place, nextId, gone, left, g);
    }
  }

  lemma LowLeft(x: Index, place: map<Key, nat>, nextId: nat, gone: set<Key>, left: set<nat>, f: nat)
    requires IndexOk(x, place, nextId) && LeftBy(x.buckets, gone, left)
    ensures (exists g | g in left :: g <= f) <==> exists l | l in x.iterators && l !in gone :: l in place && place[l] <= f
  {
    if l :| l in x.iterators && l !in gone && l in place && place[l] <= f {
      LeftExactly(x, place, nextId, gone, left, place[l]);
    }
    if g :| g in left && g <= f {
      LeftExactly(x, place, nextId, gone, left, g);
    }
  }

  lemma LeftIsInUse(x: Index, place: map<Key, nat>, nextId: nat, gone: set<Key>, left: set<nat>)
    requires IndexOk(x, place, nextId) && LeftBy(x.buckets, gone, left)
    ensures left <= x.freqSet
  {
    forall g | g in left
      ensures g in x.freqSet
    {
      ListedInUse(x, place, nextId, g);
    }
  }

  /** Two cached keys, `a` used once and `b` three times. A second use of `a` moves `minFreq_` past it,
      to 3. A key used three times is then rejected, although `a`, used twice, could make room for it. */
  lemma LoadSkipsLeast(a: Key, b: Key, x': Index, nextId: nat)
    requires a != b && IndexOk(x', map[a := 2, b := 3], nextId)
    requires Replaced(TwoKeys(a, b), x', {a}, a, 2)
    ensures IndexOk(TwoKeys(a, b), map[a := 1, b := 3], 2) && LeastFirst(TwoKeys(a, b))
    ensures !LeastFirst(x') && x'.minFreq == 3
    ensures var known := map[a := Meta(1, 2), b := Meta(1, 3)];
            Stops(Order(x'), 0, known, 0, 1, 3) && FewerHits({a, b}, known, 3) == {a}
  {
    TwoKeysOk(a, b);
    SkippedTo(a, b, x', nextId);
    LaterInOrder(x', map[a := 2, b := 3], nextId, 2);
    FirstStops(Order(x'), a, b);
  }

  lemma FirstStops(order: seq<Key>, a: Key, b: Key)
    requires a != b && order != [] && order[0] == b
    ensures var known := map[a := Meta(1, 2), b := Meta(1, 3)];
            Stops(order, 0, known, 0, 1, 3) && FewerHits({a, b}, known, 3) == {a}
  {
    assert order[..0] == [];
  }

  lemma SkippedTo(a: Key, b: Key, x': Index, nextId: nat)
    requires a != b && IndexOk(x', map[a := 2, b := 3], nextId)
    requires IndexOk(TwoKeys(a, b), map[a := 1, b := 3], 2) && Replaced(TwoKeys(a, b), x', {a}, a, 2)
    ensures x'.minFreq == 3 && x'.freqSet == {2, 3}
  {
    var x := TwoKeys(a, b);
    var left :| LeftBy(x.buckets, {a}, left) && MinReplaced(x.minFreq, left, 2, x'.minFreq);
    LeftOfTwo(a, b, left);
    InUseAfter(x, x', map[a := 2, b := 3], nextId, {a}, a, 2, left);
  }

  lemma LeftOfTwo(a: Key, b: Key, left: set<nat>)
    requires a != b && IndexOk(TwoKeys(a, b), map[a := 1, b := 3], 2) && LeftBy(TwoKeys(a, b).buckets, {a}, left)
    ensures left == {3}
  {
    LeftIsInUse(TwoKeys(a, b), map[a := 1, b := 3], 2, {a}, left);
    LeftExactly(TwoKeys(a, b), map[a := 1, b := 3], 2, {a}, left, 1);
    LeftExactly(TwoKeys(a, b), map[a := 1, b := 3], 2, {a}, left, 3);
    assert map[a := 1, b := 3][b] == 3;
  }

  lemma TwoKeysOk(a: Key, b: Key)
    requires a != b
    ensures IndexOk(TwoKeys(a, b), map[a := 1, b := 3], 2) && LeastFirst(TwoKeys(a, b))
  {
    assert [Node(0, a)][0].key == a && [Node(1, b)][0].key == b;
  }

  ghost function TwoKeys(a: Key, b: Key): Index {
    Index(map[1 := [Node(0, a)], 3 := [Node(1, b)]], map[a := 0, b := 1], {1, 3}, 1)
  }
}
