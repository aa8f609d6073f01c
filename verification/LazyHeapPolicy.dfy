/** The LFU-S and W-LFU caching policies. Both keep the cached keys on a heap that may hold stale
    entries: a key whose value changes is not moved, its entry is invalidated and a copy pushed.
    Key objects are shared between the heap and two hashed sets and updated in place; here they
    live in `objects`, in order of creation, and are referred to by index. */
module LazyHeapPolicy {
  import opened Collections
  import opened Segments
  import opened Sums

  // ---------------------------------------------------------------------------
  // Key objects

  /** `hits / size` in floating point: a size of 0 gives infinity. */
  datatype Rate = Finite(r: real) | Infinite

  function RateOf(hits: nat, size: nat): Rate {
    if size == 0 then Infinite else Finite(hits as real / size as real)
  }

  predicate RateLess(a: Rate, b: Rate) {
    a.Finite? && (b.Infinite? || a.r < b.r)
  }

  type Ref = nat

  datatype SegmentKey = SegmentKey(key: Key, size: nat, hitNum: nat, perSizeFreq: Rate, value: real, valid: bool)

  function Hit(o: SegmentKey, size: nat): SegmentKey {
    o.(hitNum := o.hitNum + 1, perSizeFreq := RateOf(o.hitNum + 1, size))
  }

  /** One more hit; the hits per byte follow from the hits and the segment's size. */
  predicate HitCounted(before: SegmentKey, after: SegmentKey, size: nat) {
    && after.key == before.key && after.size == before.size && after.value == before.value
    && after.hitNum == before.hitNum + 1
    && (size == 0 ==> after.perSizeFreq.Infinite?)
    && (size > 0 ==> after.perSizeFreq.Finite? && after.perSizeFreq.r * size as real == after.hitNum as real)
  }

  lemma HitIsCounted(o: SegmentKey, size: nat)
    ensures HitCounted(o, Hit(o, size), size)
  {
  }

  /** W-LFU compares weights, LFU-S hits per byte. */
  predicate Less(byWeight: bool, a: SegmentKey, b: SegmentKey) {
    if byWeight then a.value < b.value else RateLess(a.perSizeFreq, b.perSizeFreq)
  }

  // ---------------------------------------------------------------------------
  // States

  datatype State = State(
    objects: seq<SegmentKey>,
    heap: multiset<Ref>,        // what is on the heap; values change inside it, so its order says nothing
    cached: map<Key, Ref>,
    known: map<Key, Ref>,
    free: nat)

  /** Every object is known under its key, and exactly the known one is valid. */
  ghost predicate OneValid(s: State) {
    && (forall r | 0 <= r < |s.objects| ::
          s.objects[r].key in s.known && (s.objects[r].valid <==> s.known[s.objects[r].key] == r))
    && (forall k | k in s.known :: s.known[k] < |s.objects| && s.objects[s.known[k]].key == k)
  }

  /** The valid heap entries are the cached objects, each once, and these are the known ones. */
  ghost predicate HeapAgrees(s: State) {
    && (forall r | r in s.heap :: r < |s.objects| && (s.objects[r].valid ==> s.objects[r].key in s.cached))
    && (forall k | k in s.cached :: k in s.known && s.cached[k] == s.known[k] && s.heap[s.cached[k]] == 1)
  }

  ghost function SizeIn(s: State): Key -> nat {
    k => if k in s.known && s.known[k] < |s.objects| then s.objects[s.known[k]].size else 0
  }

  ghost predicate Accounted(s: State, maxSize: nat) {
    s.free + Sum(s.cached.Keys, SizeIn(s)) == maxSize
  }

  ghost predicate Ok(s: State, maxSize: nat) {
    OneValid(s) && HeapAgrees(s) && Accounted(s, maxSize)
  }

  /** Said the other way round: the valid entries of the heap are exactly the cached objects. */
  lemma ValidEntriesAreCached(s: State, maxSize: nat, r: Ref)
    requires Ok(s, maxSize) && r < |s.objects| && s.objects[r].valid
    ensures s.heap[r] == (if s.objects[r].key in s.cached then 1 else 0)
    ensures s.objects[r].key in s.cached ==> s.cached[s.objects[r].key] == r
  {
  }

  // ---------------------------------------------------------------------------
  // Loading

  /** A use of a key that was never used before. */
  ghost function Meet(s: State, o: SegmentKey): State {
    s.(objects := s.objects + [o], known := s.known[o.key := |s.objects|])
  }

  /** A further use: the hit is counted, and a cached key gets a fresh object. */
  ghost function Use(s: State, k: Key, size: nat): State
    requires k in s.known && s.known[k] < |s.objects|
  {
    var hit := Hit(s.objects[s.known[k]], size);
    if k !in s.cached then s.(objects := s.objects[s.known[k] := hit])
    else
      var copy := |s.objects|;
      State(s.objects[s.known[k] := hit.(valid := false)] + [hit.(valid := true)],
            s.heap + multiset{copy}, s.cached[k := copy], s.known[k := copy], s.free)
  }

  lemma UseCountsHit(s: State, k: Key, size: nat)
    requires OneValid(s) && k in s.known
    ensures var s' := Use(s, k, size);
            k in s'.known && s'.known[k] < |s'.objects| && HitCounted(s.objects[s.known[k]], s'.objects[s'.known[k]], size)
  {
    HitIsCounted(s.objects[s.known[k]], size);
  }

  lemma MeetKeepsOk(s: State, maxSize: nat, o: SegmentKey)
    requires Ok(s, maxSize) && o.key !in s.known && o.valid
    ensures Ok(Meet(s, o), maxSize)
  {
    MeetKeepsOneValid(s, o);
    MeetKeepsHeapAgrees(s, o);
    SameSizes(s, Meet(s, o));
  }

  lemma MeetKeepsOneValid(s: State, o: SegmentKey)
    requires OneValid(s) && o.key !in s.known && o.valid
    ensures OneValid(Meet(s, o))
  {
  }

  lemma MeetKeepsHeapAgrees(s: State, o: SegmentKey)
    requires HeapAgrees(s) && o.key !in s.known
    ensures HeapAgrees(Meet(s, o))
  {
  }

  lemma UseKeepsOk(s: State, maxSize: nat, k: Key, size: nat)
    requires Ok(s, maxSize) && k in s.known
    ensures Ok(Use(s, k, size), maxSize)
  {
    UseKeepsOneValid(s, k, size);
    UseKeepsHeapAgrees(s, k, size);
    UseKeepsSizes(s, k, size);
    SameSizes(s, Use(s, k, size));
  }

  lemma UseKeepsSizes(s: State, k: Key, size: nat)
    requires OneValid(s) && k in s.known
    ensures Use(s, k, size).cached.Keys == s.cached.Keys
    ensures forall x | x in s.cached :: SizeIn(s)(x) == SizeIn(Use(s, k, size))(x)
  {
  }

  /** Only sizes of cached keys matter to the accounting. */
  lemma SameSizes(s: State, s': State)
    requires s'.cached.Keys == s.cached.Keys
    requires forall k | k in s.cached :: SizeIn(s)(k) == SizeIn(s')(k)
    ensures Sum(s'.cached.Keys, SizeIn(s')) == Sum(s.cached.Keys, SizeIn(s))
  {
    SumAgrees(s.cached.Keys, SizeIn(s), SizeIn(s'));
  }

  lemma UseKeepsOneValid(s: State, k: Key, size: nat)
    requires OneValid(s) && k in s.known
    ensures OneValid(Use(s, k, size))
  {
    var s' := Use(s, k, size);
    forall r | 0 <= r < |s'.objects|
      ensures s'.objects[r].key in s'.known && (s'.objects[r].valid <==> s'.known[s'.objects[r].key] == r)
    {
      assert r < |s.objects| ==> s'.objects[r].key == s.objects[r].key;
    }
  }

  lemma UseKeepsHeapAgrees(s: State, k: Key, size: nat)
    requires OneValid(s) && HeapAgrees(s) && k in s.known
    ensures HeapAgrees(Use(s, k, size))
  {
    var s' := Use(s, k, size);
    assert |s.objects| !in s.heap;
    forall r | r in s'.heap
      ensures r < |s'.objects| && (s'.objects[r].valid ==> s'.objects[r].key in s'.cached)
    {
      assert r in s.heap || r == |s.objects|;
    }
  }

  // ---------------------------------------------------------------------------
  // Storing

  ghost function KeysOf(objects: seq<SegmentKey>, refs: seq<Ref>): set<Key>
    requires forall r | r in refs :: r < |objects|
  {
    set r | r in refs :: objects[r].key
  }

  /** Each of `refs` has a smaller weight than `incoming` (W-LFU), or fewer hits per byte (LFU-S). */
  predicate AllWorthLess(objects: seq<SegmentKey>, refs: seq<Ref>, byWeight: bool, incoming: Ref) {
    && incoming < |objects|
    && forall x | x in refs :: x < |objects| &&
         if byWeight then objects[x].value < objects[incoming].value
         else objects[x].perSizeFreq.Finite?
              && (objects[incoming].perSizeFreq.Finite? ==> objects[x].perSizeFreq.r < objects[incoming].perSizeFreq.r)
  }

  /** Some cached key has at least the weight of `incoming` (W-LFU), or as many hits per byte (LFU-S). */
  ghost predicate SomeWorthAsMuch(objects: seq<SegmentKey>, cached: map<Key, Ref>, byWeight: bool, incoming: Ref) {
    && incoming < |objects|
    && exists c | c in cached :: cached[c] < |objects| &&
         if byWeight then objects[incoming].value <= objects[cached[c]].value
         else objects[cached[c]].perSizeFreq.Finite?
              ==> objects[incoming].perSizeFreq.Finite? && objects[incoming].perSizeFreq.r <= objects[cached[c]].perSizeFreq.r
  }

  /** Cached objects worth less than `incoming`, each once. */
  ghost predicate Victims(s: State, removed: seq<Ref>, byWeight: bool, incoming: Ref) {
    && incoming < |s.objects| && Distinct(removed)
    && forall r | r in removed :: IsVictim(s, r, byWeight, incoming)
  }

  ghost predicate IsVictim(s: State, r: Ref, byWeight: bool, incoming: Ref)
    requires incoming < |s.objects|
  {
    && r < |s.objects| && s.objects[r].key in s.cached && s.cached[s.objects[r].key] == r
    && Less(byWeight, s.objects[r], s.objects[incoming])
  }

  /** The heap after the victims and some stale entries have been popped. */
  ghost predicate Popped(s: State, heap: multiset<Ref>, removed: seq<Ref>) {
    && heap <= s.heap
    && forall r | r in s.heap && r < |s.objects| && s.objects[r].valid :: heap[r] == if r in removed then 0 else s.heap[r]
  }

  /** The state of the store loop, which started in `s`. */
  ghost predicate Looping(s: State, heap: multiset<Ref>, cached: map<Key, Ref>, free: nat, removed: seq<Ref>,
                          byWeight: bool, incoming: Ref)
  {
    && Popped(s, heap, removed) && Victims(s, removed, byWeight, incoming)
    && cached == s.cached - KeysOf(s.objects, removed)
    && free == s.free + Sum(KeysOf(s.objects, removed), SizeIn(s))
    && NeededLast(s.objects, free, removed, incoming)
  }

  /** Without the last victim the bytes would not have been enough. */
  ghost predicate NeededLast(objects: seq<SegmentKey>, free: nat, removed: seq<Ref>, incoming: Ref)
    requires incoming < |objects| && forall r | r in removed :: r < |objects|
  {
    removed != [] ==> var last := removed[|removed| - 1]; assert last in removed; free < objects[last].size + objects[incoming].size
  }

  lemma LoopStale(s: State, heap: multiset<Ref>, cached: map<Key, Ref>, free: nat, removed: seq<Ref>,
                  byWeight: bool, incoming: Ref, r: Ref)
    requires Looping(s, heap, cached, free, removed, byWeight, incoming)
    requires r in heap && r < |s.objects| && !s.objects[r].valid
    ensures Looping(s, heap - multiset{r}, cached, free, removed, byWeight, incoming)
  {
  }

  lemma LoopVictim(s: State, maxSize: nat, heap: multiset<Ref>, cached: map<Key, Ref>, free: nat, removed: seq<Ref>,
                   byWeight: bool, incoming: Ref, r: Ref)
    requires Ok(s, maxSize) && Looping(s, heap, cached, free, removed, byWeight, incoming)
    requires r in heap && r < |s.objects| && s.objects[r].valid && Less(byWeight, s.objects[r], s.objects[incoming])
    requires free < s.objects[incoming].size
    ensures Looping(s, heap - multiset{r}, cached - {s.objects[r].key}, free + s.objects[r].size, removed + [r],
                    byWeight, incoming)
  {
    var k := s.objects[r].key;
    ValidEntriesAreCached(s, maxSize, r);
    PopVictim(s, heap, removed, r);
    VictimsOneMore(s, cached, removed, byWeight, incoming, r);
    KeysOfAppend(s.objects, removed, r);
    SumAdd(KeysOf(s.objects, removed), k, SizeIn(s));
  }

  /** What the loop gave back and what is still cached make up the whole cache. */
  lemma LoopTotal(s: State, maxSize: nat, heap: multiset<Ref>, cached: map<Key, Ref>, free: nat, removed: seq<Ref>,
                  byWeight: bool, incoming: Ref)
    requires Accounted(s, maxSize) && Looping(s, heap, cached, free, removed, byWeight, incoming)
    ensures free + Sum(cached.Keys, SizeIn(s)) == maxSize
  {
    var gone := KeysOf(s.objects, removed);
    VictimsAreCached(s, removed, byWeight, incoming);
    SumSplit(s.cached.Keys, gone, SizeIn(s));
    assert cached.Keys == s.cached.Keys - gone;
  }

  lemma VictimsAreCached(s: State, removed: seq<Ref>, byWeight: bool, incoming: Ref)
    requires Victims(s, removed, byWeight, incoming)
    ensures forall r | r in removed :: r < |s.objects|
    ensures KeysOf(s.objects, removed) <= s.cached.Keys
  {
    assert forall r | r in removed :: IsVictim(s, r, byWeight, incoming);
  }

  lemma VictimsOneMore(s: State, cached: map<Key, Ref>, removed: seq<Ref>, byWeight: bool, incoming: Ref, r: Ref)
    requires Victims(s, removed, byWeight, incoming) && cached == s.cached - KeysOf(s.objects, removed)
    requires r !in removed && IsVictim(s, r, byWeight, incoming)
    ensures Victims(s, removed + [r], byWeight, incoming) && s.objects[r].key in cached
    ensures cached - {s.objects[r].key} == s.cached - KeysOf(s.objects, removed + [r])
  {
  }

  lemma PopVictim(s: State, heap: multiset<Ref>, removed: seq<Ref>, r: Ref)
    requires Popped(s, heap, removed) && r in heap && s.heap[r] == 1
    ensures Popped(s, heap - multiset{r}, removed + [r])
  {
  }

  lemma KeysOfAppend(objects: seq<SegmentKey>, refs: seq<Ref>, r: Ref)
    requires r < |objects| && forall x | x in refs :: x < |objects|
    ensures KeysOf(objects, refs + [r]) == KeysOf(objects, refs) + {objects[r].key}
  {
  }

  /** While bytes are missing a valid entry is left, so the loop never reads the front of an
      empty heap. */
  lemma SomethingLeft(s: State, maxSize: nat, heap: multiset<Ref>, cached: map<Key, Ref>, free: nat, removed: seq<Ref>,
                      byWeight: bool, incoming: Ref)
    requires Ok(s, maxSize) && Looping(s, heap, cached, free, removed, byWeight, incoming) && free < maxSize
    ensures |heap| > 0
  {
    LoopTotal(s, maxSize, heap, cached, free, removed, byWeight, incoming);
    var k :| k in cached;
    var r := s.cached[k];
    assert s.objects[r].valid && s.objects[r].key == k && r in s.heap;
    assert heap[r] == s.heap[r];
  }

  /** What an accepted store makes of the loop's result. */
  ghost function Filled(s: State, heap: multiset<Ref>, cached: map<Key, Ref>, free: nat, k: Key): State
    requires k in s.known && s.known[k] < |s.objects| && s.objects[s.known[k]].size <= free
  {
    State(s.objects, heap + multiset{s.known[k]}, cached[k := s.known[k]], s.known, free - s.objects[s.known[k]].size)
  }

  lemma FilledIsOk(s: State, maxSize: nat, heap: multiset<Ref>, cached: map<Key, Ref>, free: nat, removed: seq<Ref>,
                   byWeight: bool, k: Key)
    requires Ok(s, maxSize) && k in s.known && k !in s.cached && s.objects[s.known[k]].size <= free
    requires Looping(s, heap, cached, free, removed, byWeight, s.known[k])
    ensures Ok(Filled(s, heap, cached, free, k), maxSize)
  {
    LoopingAgrees(s, maxSize, heap, cached, free, removed, byWeight, s.known[k]);
    PushAgrees(s.(heap := heap, cached := cached), k);
    LoopTotal(s, maxSize, heap, cached, free, removed, byWeight, s.known[k]);
    FilledAccounted(s, maxSize, heap, cached, free, k);
  }

  lemma FilledAccounted(s: State, maxSize: nat, heap: multiset<Ref>, cached: map<Key, Ref>, free: nat, k: Key)
    requires k in s.known && k !in cached && s.known[k] < |s.objects| && s.objects[s.known[k]].size <= free
    requires free + Sum(cached.Keys, SizeIn(s)) == maxSize
    ensures Accounted(Filled(s, heap, cached, free, k), maxSize)
  {
    var s' := Filled(s, heap, cached, free, k);
    assert s'.cached.Keys == cached.Keys + {k};
    SumAdd(cached.Keys, k, SizeIn(s));
    SumAgrees(s'.cached.Keys, SizeIn(s), SizeIn(s'));
  }

  lemma PushAgrees(s: State, k: Key)
    requires OneValid(s) && HeapAgrees(s) && k in s.known && k !in s.cached
    ensures HeapAgrees(s.(heap := s.heap + multiset{s.known[k]}, cached := s.cached[k := s.known[k]]))
  {
  }

  /** A cached key must not be stored again: its object would be on the heap twice. */
  lemma StoredTwiceDisagrees(s: State, k: Key)
    requires HeapAgrees(s) && k in s.cached
    ensures !HeapAgrees(s.(heap := s.heap + multiset{s.known[k]}))
  {
    assert (s.heap + multiset{s.known[k]})[s.cached[k]] == 2;
  }

  lemma LoopingAgrees(s: State, maxSize: nat, heap: multiset<Ref>, cached: map<Key, Ref>, free: nat, removed: seq<Ref>,
                      byWeight: bool, incoming: Ref)
    requires Ok(s, maxSize) && Looping(s, heap, cached, free, removed, byWeight, incoming)
    ensures HeapAgrees(s.(heap := heap, cached := cached))
  {
  }

  /** Dropping stale entries does no harm, and leaves the valid entries as they were. */
  lemma RejectedIsOk(s: State, maxSize: nat, heap: multiset<Ref>)
    requires Ok(s, maxSize) && Popped(s, heap, [])
    ensures Ok(s.(heap := heap), maxSize)
  {
  }

  /** A key object without a size gets the size of the segment. */
  ghost function Sized(s: State, k: Key, size: nat): State
    requires k in s.known && s.known[k] < |s.objects|
  {
    var o := s.objects[s.known[k]];
    s.(objects := s.objects[s.known[k] := if o.size == 0 then o.(size := size) else o])
  }

  lemma SizedKeepsOk(s: State, maxSize: nat, k: Key, size: nat)
    requires Ok(s, maxSize) && k in s.known && k !in s.cached
    ensures Ok(Sized(s, k, size), maxSize)
  {
    var s' := Sized(s, k, size);
    assert forall r | 0 <= r < |s.objects| :: s'.objects[r].key == s.objects[r].key && s'.objects[r].valid == s.objects[r].valid;
    SizedKeepsSizes(s, k, size);
    SumAgrees(s.cached.Keys, SizeIn(s), SizeIn(s'));
  }

  lemma SizedKeepsSizes(s: State, k: Key, size: nat)
    requires OneValid(s) && HeapAgrees(s) && k in s.known && k !in s.cached
    ensures forall x | x in s.cached :: SizeIn(s)(x) == SizeIn(Sized(s, k, size))(x)
  {
  }

  // ---------------------------------------------------------------------------
  // The heap operations, as far as they can be relied on

  method Push(heap: seq<Ref>, r: Ref) returns (heap': seq<Ref>)
    ensures multiset(heap') == multiset(heap) + multiset{r}
  {
    heap' := [r] + heap;
  }

  method Pop(heap: seq<Ref>) returns (heap': seq<Ref>)
    requires heap != []
    ensures multiset(heap') == multiset(heap) - multiset{heap[0]} && |heap'| < |heap|
  {
    assert heap == [heap[0]] + heap[1..];
    heap' := heap[1..];
  }

  /** The store loop: pops stale entries, evicts what is worth less than `incoming` until there is
      room, or finds a key worth as much and puts everything back. */
  method MakeRoom(objects: seq<SegmentKey>, heap0: seq<Ref>, cached0: map<Key, Ref>, free0: nat, maxSize: nat,
                  byWeight: bool, incoming: Ref, ghost s: State)
    returns (ok: bool, heap: seq<Ref>, cached: map<Key, Ref>, free: nat, removed: seq<Ref>)
    requires s == State(objects, multiset(heap0), cached0, s.known, free0) && Ok(s, maxSize)
    requires incoming < |objects| && objects[incoming].size <= maxSize
    ensures ok ==> Looping(s, multiset(heap), cached, free, removed, byWeight, incoming)
    ensures ok ==> objects[incoming].size <= free
    ensures !ok ==> Popped(s, multiset(heap), []) && cached == cached0
    ensures !ok ==> Unbeaten(s, byWeight, incoming)
    ensures ok ==> AllWorthLess(objects, removed, byWeight, incoming)
    ensures !ok ==> SomeWorthAsMuch(objects, cached, byWeight, incoming)
  {
    heap, cached, free, removed := heap0, cached0, free0, [];
    assert cached0 - KeysOf(objects, []) == cached0;
    while free < objects[incoming].size
      invariant Looping(s, multiset(heap), cached, free, removed, byWeight, incoming)
      decreases |heap|
    {
      SomethingLeft(s, maxSize, multiset(heap), cached, free, removed, byWeight, incoming);
      var front := heap[0];
      FrontIsObject(s, maxSize, heap, removed);
      if !objects[front].valid {
        LoopStale(s, multiset(heap), cached, free, removed, byWeight, incoming, front);
        heap := Pop(heap);
        continue;
      }
      if Less(byWeight, objects[front], objects[incoming]) {
        LoopVictim(s, maxSize, multiset(heap), cached, free, removed, byWeight, incoming, front);
        removed := removed + [front];
        heap := Pop(heap);
        cached := cached - {objects[front].key};
        free := free + objects[front].size;
      } else {
        FrontUnbeaten(s, maxSize, byWeight, incoming, front);
        UnbeatenIsWorthAsMuch(s, byWeight, incoming);
        heap, cached := Restore(objects, heap, cached, removed, s, byWeight, incoming);
        return false, heap, cached, free, removed;
      }
    }
    ok := true;
    VictimsAreWorthLess(s, removed, byWeight, incoming);
  }

  /** What a store evicts has a smaller weight than the stored key, or fewer hits per byte. */
  lemma VictimsAreWorthLess(s: State, removed: seq<Ref>, byWeight: bool, incoming: Ref)
    requires Victims(s, removed, byWeight, incoming)
    ensures AllWorthLess(s.objects, removed, byWeight, incoming)
    ensures byWeight ==> forall x | x in removed :: s.objects[x].value < s.objects[incoming].value
    ensures !byWeight && s.objects[incoming].perSizeFreq.Finite? ==>
              forall x | x in removed :: s.objects[x].perSizeFreq.Finite? && s.objects[x].perSizeFreq.r < s.objects[incoming].perSizeFreq.r
    ensures !byWeight ==> forall x | x in removed :: s.objects[x].perSizeFreq.Finite?
  {
    assert forall x | x in removed :: IsVictim(s, x, byWeight, incoming);
  }

  /** What rejects a store is a cached key of at least the same weight, or as many hits per byte. */
  lemma UnbeatenIsWorthAsMuch(s: State, byWeight: bool, incoming: Ref)
    requires Unbeaten(s, byWeight, incoming)
    ensures SomeWorthAsMuch(s.objects, s.cached, byWeight, incoming)
  {
  }

  /** Some cached key is worth at least as much as the incoming one. */
  ghost predicate Unbeaten(s: State, byWeight: bool, incoming: Ref) {
    exists k | k in s.cached :: s.cached[k] < |s.objects| && incoming < |s.objects|
                             && !Less(byWeight, s.objects[s.cached[k]], s.objects[incoming])
  }

  lemma FrontUnbeaten(s: State, maxSize: nat, byWeight: bool, incoming: Ref, front: Ref)
    requires Ok(s, maxSize) && incoming < |s.objects| && front in s.heap
    requires s.objects[front].valid && !Less(byWeight, s.objects[front], s.objects[incoming])
    ensures Unbeaten(s, byWeight, incoming)
  {
  }

  lemma FrontIsObject(s: State, maxSize: nat, heap: seq<Ref>, removed: seq<Ref>)
    requires Ok(s, maxSize) && heap != [] && Popped(s, multiset(heap), removed)
    ensures heap[0] in multiset(heap) && heap[0] in s.heap && heap[0] < |s.objects|
  {
  }

  /** The rollback loop. */
  method Restore(objects: seq<SegmentKey>, heap0: seq<Ref>, cached0: map<Key, Ref>, removed: seq<Ref>,
                 ghost s: State, ghost byWeight: bool, ghost incoming: Ref)
    returns (heap: seq<Ref>, cached: map<Key, Ref>)
    requires objects == s.objects && OneValid(s) && HeapAgrees(s)
    requires Restoring(s, multiset(heap0), cached0, removed, byWeight, incoming)
    ensures Popped(s, multiset(heap), []) && cached == s.cached
  {
    heap, cached := heap0, cached0;
    assert removed[0..] == removed;
    for i := 0 to |removed|
      invariant Restoring(s, multiset(heap), cached, removed[i..], byWeight, incoming)
    {
      RestoreStep(s, multiset(heap), cached, removed, i, byWeight, incoming);
      heap := Push(heap, removed[i]);
      cached := cached[objects[removed[i]].key := removed[i]];
    }
    AllRestored(s, multiset(heap), cached, removed, byWeight, incoming);
  }

  lemma AllRestored(s: State, heap: multiset<Ref>, cached: map<Key, Ref>, removed: seq<Ref>, byWeight: bool, incoming: Ref)
    requires Restoring(s, heap, cached, removed[|removed|..], byWeight, incoming)
    ensures Popped(s, heap, []) && cached == s.cached
  {
  }

  ghost predicate Restoring(s: State, heap: multiset<Ref>, cached: map<Key, Ref>, rest: seq<Ref>, byWeight: bool, incoming: Ref) {
    Popped(s, heap, rest) && Victims(s, rest, byWeight, incoming) && cached == s.cached - KeysOf(s.objects, rest)
  }

  lemma RestoreStep(s: State, heap: multiset<Ref>, cached: map<Key, Ref>, removed: seq<Ref>, i: nat, byWeight: bool, incoming: Ref)
    requires OneValid(s) && HeapAgrees(s) && i < |removed| && Restoring(s, heap, cached, removed[i..], byWeight, incoming)
    ensures removed[i] < |s.objects|
    ensures Restoring(s, heap + multiset{removed[i]}, cached[s.objects[removed[i]].key := removed[i]], removed[i + 1..], byWeight, incoming)
  {
    var r, rest := removed[i], removed[i + 1..];
    assert removed[i..] == [r] + rest;
    RestoreOne(s, heap, cached, r, rest, byWeight, incoming);
  }

  lemma RestoreOne(s: State, heap: multiset<Ref>, cached: map<Key, Ref>, r: Ref, rest: seq<Ref>, byWeight: bool, incoming: Ref)
    requires OneValid(s) && HeapAgrees(s) && Restoring(s, heap, cached, [r] + rest, byWeight, incoming)
    ensures r < |s.objects| && Restoring(s, heap + multiset{r}, cached[s.objects[r].key := r], rest, byWeight, incoming)
  {
    assert ([r] + rest)[1..] == rest && r in [r] + rest;
    DistinctTail([r] + rest);
    assert forall x | x in rest :: x in [r] + rest;
    assert IsVictim(s, r, byWeight, incoming);
    UnpopVictim(s, heap, r, rest);
    UncacheVictim(s, r, rest, byWeight, incoming);
  }

  lemma UnpopVictim(s: State, heap: multiset<Ref>, r: Ref, rest: seq<Ref>)
    requires Popped(s, heap, [r] + rest) && r !in rest && r < |s.objects| && s.objects[r].valid && s.heap[r] == 1
    ensures Popped(s, heap + multiset{r}, rest)
  {
  }

  lemma UncacheVictim(s: State, r: Ref, rest: seq<Ref>, byWeight: bool, incoming: Ref)
    requires incoming < |s.objects| && IsVictim(s, r, byWeight, incoming) && Victims(s, rest, byWeight, incoming) && r !in rest
    requires forall x | x in [r] + rest :: x < |s.objects|
    ensures (s.cached - KeysOf(s.objects, [r] + rest))[s.objects[r].key := r] == s.cached - KeysOf(s.objects, rest)
  {
  }

  // ---------------------------------------------------------------------------
  // Weights

  /** Adds to the value of a known key, in place. */
  ghost function Weigh(s: State, k: Key, w: real): State
    requires k in s.known && s.known[k] < |s.objects|
  {
    var o := s.objects[s.known[k]];
    s.(objects := s.objects[s.known[k] := o.(value := o.value + w)])
  }

  lemma WeighKeepsOk(s: State, maxSize: nat, k: Key, w: real)
    requires Ok(s, maxSize) && k in s.known
    ensures Ok(Weigh(s, k, w), maxSize)
  {
    var s' := Weigh(s, k, w);
    assert forall r | 0 <= r < |s.objects| :: s'.objects[r].key == s.objects[r].key && s'.objects[r].valid == s.objects[r].valid
                                           && s'.objects[r].size == s.objects[r].size;
    SameSizes(s, s');
  }

  /** The loop over the weights of a query: the state, the keys that have been weighed, and whether it
      threw. */
  datatype Weighed = Weighed(state: State, updated: set<Key>, threw: bool)

  ghost function WeighNext(w: Weighed, k: Key, weight: real): Weighed {
    if w.threw || k in w.updated then w
    else if k !in w.state.known then w.(threw := true)
    else if w.state.known[k] >= |w.state.objects| then w
    else Weighed(Weigh(w.state, k, weight), w.updated + {k}, false)
  }

  ghost function WeighAll(s: State, updated: set<Key>, weights: seq<(Key, real)>): Weighed {
    if weights == [] then Weighed(s, updated, false)
    else
      var n := |weights| - 1;
      WeighNext(WeighAll(s, updated, weights[..n]), weights[n].0, weights[n].1)
  }

  lemma {:induction false} ThrewStays(s: State, updated: set<Key>, weights: seq<(Key, real)>, n: nat)
    requires n <= |weights| && WeighAll(s, updated, weights[..n]).threw
    ensures WeighAll(s, updated, weights) == WeighAll(s, updated, weights[..n])
    decreases |weights|
  {
    if n == |weights| {
      assert weights[..n] == weights;
    } else {
      var most := weights[..|weights| - 1];
      assert most[..n] == weights[..n];
      ThrewStays(s, updated, most, n);
    }
  }

  /** The loop throws exactly if some key is neither known nor weighed in this query before. */
  lemma {:induction false} WeighThrowsExactly(s: State, updated: set<Key>, weights: seq<(Key, real)>)
    requires OneValid(s)
    ensures var w := WeighAll(s, updated, weights);
            && (w.threw <==> exists i | 0 <= i < |weights| :: weights[i].0 !in updated && weights[i].0 !in s.known)
            && w.state.known == s.known && updated <= w.updated <= updated + s.known.Keys
    decreases |weights|
  {
    if weights != [] {
      var n := |weights| - 1;
      WeighThrowsExactly(s, updated, weights[..n]);
      var w := WeighAll(s, updated, weights);
      assert forall i | 0 <= i < n :: weights[..n][i] == weights[i];
      if w.threw {
        if WeighAll(s, updated, weights[..n]).threw {
          var i :| 0 <= i < |weights[..n]| && weights[..n][i].0 !in updated && weights[..n][i].0 !in s.known;
          assert weights[i].0 !in updated && weights[i].0 !in s.known;
        } else {
          assert weights[n].0 !in updated && weights[n].0 !in s.known;
        }
      }
    }
  }

  /** The first weight given for `k`. */
  ghost function FirstWeight(weights: seq<(Key, real)>, k: Key): real {
    if weights == [] then 0.0 else if weights[0].0 == k then weights[0].1 else FirstWeight(weights[1..], k)
  }

  ghost function ValueOf(s: State, k: Key): real {
    if k in s.known && s.known[k] < |s.objects| then s.objects[s.known[k]].value else 0.0
  }

  lemma {:induction false} FirstWeightAppend(weights: seq<(Key, real)>, last: (Key, real), k: Key)
    ensures (exists i | 0 <= i < |weights| :: weights[i].0 == k) ==> FirstWeight(weights + [last], k) == FirstWeight(weights, k)
    ensures !(exists i | 0 <= i < |weights| :: weights[i].0 == k) ==>
              FirstWeight(weights, k) == 0.0 && FirstWeight(weights + [last], k) == if last.0 == k then last.1 else 0.0
    decreases |weights|
  {
    if weights == [] {
      assert weights + [last] == [last] && [last][1..] == [];
    } else {
      assert (weights + [last])[1..] == weights[1..] + [last];
      FirstWeightAppend(weights[1..], last, k);
      if exists i | 0 <= i < |weights| :: weights[i].0 == k {
        var i :| 0 <= i < |weights| && weights[i].0 == k;
        assert i > 0 ==> weights[1..][i - 1].0 == k;
      }
    }
  }

  /** Unless it threw, the loop has added to each known key the first weight given for it, if it was
      not weighed in this query before, and nothing otherwise. */
  lemma {:induction false} WeightCountsOnce(s: State, updated: set<Key>, weights: seq<(Key, real)>, k: Key)
    requires OneValid(s) && k in s.known && !WeighAll(s, updated, weights).threw
    ensures var w := WeighAll(s, updated, weights);
            && ValueOf(w.state, k) == ValueOf(s, k) + (if k in updated then 0.0 else FirstWeight(weights, k))
            && (k in w.updated <==> k in updated || exists i | 0 <= i < |weights| :: weights[i].0 == k)
            && OneValid(w.state) && w.state.known == s.known && |w.state.objects| == |s.objects|
    decreases |weights|
  {
    if weights != [] {
      var n := |weights| - 1;
      var before := WeighAll(s, updated, weights[..n]);
      WeightCountsOnce(s, updated, weights[..n], k);
      assert weights == weights[..n] + [weights[n]];
      FirstWeightAppend(weights[..n], weights[n], k);
      WeighNextValue(before, weights[n].0, weights[n].1, k);
      HasKey(weights, k);
    }
  }

  lemma HasKey(weights: seq<(Key, real)>, k: Key)
    requires weights != []
    ensures var n := |weights| - 1;
            (exists i | 0 <= i < |weights| :: weights[i].0 == k)
            <==> weights[n].0 == k || exists i | 0 <= i < |weights[..n]| :: weights[..n][i].0 == k
  {
    var n := |weights| - 1;
    if exists i | 0 <= i < |weights| :: weights[i].0 == k {
      var i :| 0 <= i < |weights| && weights[i].0 == k;
      assert i < n ==> weights[..n][i].0 == k;
    }
  }

  lemma WeighNextValue(w: Weighed, l: Key, weight: real, k: Key)
    requires OneValid(w.state) && k in w.state.known && !WeighNext(w, l, weight).threw
    ensures var w' := WeighNext(w, l, weight);
            && ValueOf(w'.state, k) == ValueOf(w.state, k) + (if k == l && k !in w.updated then weight else 0.0)
            && (k in w'.updated <==> k in w.updated || k == l)
            && OneValid(w'.state) && w'.state.known == w.state.known && |w'.state.objects| == |w.state.objects|
  {
    assert l in w.state.known && l != k ==> w.state.known[l] != w.state.known[k];
  }

  // ---------------------------------------------------------------------------
  // Runs

  /** What a policy may do. A store carries the outcome of its loop. */
  datatype Step =
    | Load(object: SegmentKey)
    | AddWeight(key: Key, weight: real)
    | Accept(key: Key, size: nat, heap: multiset<Ref>, cached: map<Key, Ref>, free: nat, removed: seq<Ref>)
    | Reject(key: Key, size: nat, heap: multiset<Ref>)

  ghost predicate Enabled(s: State, step: Step, maxSize: nat, byWeight: bool, segmentSizes: map<Key, nat>)
    requires OneValid(s)
  {
    match step
    case Load(o) => if o.key in s.known then o.key in segmentSizes else o.valid
    case AddWeight(k, w) => k in s.known
    case Accept(k, size, heap, cached, free, removed) =>
      && k in s.known && k !in s.cached && Sized(s, k, size).objects[s.known[k]].size <= free
      && Looping(Sized(s, k, size), heap, cached, free, removed, byWeight, s.known[k])
    case Reject(k, size, heap) =>
      k in s.known && k !in s.cached && Popped(Sized(s, k, size), heap, [])
  }

  ghost function Next(s: State, step: Step, maxSize: nat, byWeight: bool, segmentSizes: map<Key, nat>): State
    requires OneValid(s) && Enabled(s, step, maxSize, byWeight, segmentSizes)
  {
    match step
    case Load(o) => if o.key in s.known then Use(s, o.key, segmentSizes[o.key]) else Meet(s, o)
    case AddWeight(k, w) => Weigh(s, k, w)
    case Accept(k, size, heap, cached, free, removed) => Filled(Sized(s, k, size), heap, cached, free, k)
    case Reject(k, size, heap) => Sized(s, k, size).(heap := heap)
  }

  lemma StepKeepsOk(s: State, step: Step, maxSize: nat, byWeight: bool, segmentSizes: map<Key, nat>)
    requires Ok(s, maxSize) && Enabled(s, step, maxSize, byWeight, segmentSizes)
    ensures Ok(Next(s, step, maxSize, byWeight, segmentSizes), maxSize)
  {
    match step
    case Load(o) =>
      if o.key in s.known {
        UseKeepsOk(s, maxSize, o.key, segmentSizes[o.key]);
      } else {
        MeetKeepsOk(s, maxSize, o);
      }
    case AddWeight(k, w) => WeighKeepsOk(s, maxSize, k, w);
    case Accept(k, size, heap, cached, free, removed) =>
      SizedKeepsOk(s, maxSize, k, size);
      FilledIsOk(Sized(s, k, size), maxSize, heap, cached, free, removed, byWeight, k);
    case Reject(k, size, heap) =>
      SizedKeepsOk(s, maxSize, k, size);
      RejectedIsOk(Sized(s, k, size), maxSize, heap);
  }

  /** Objects are never dropped, keep their keys, and once stale stay stale. */
  ghost predicate StaleStays(s: State, s': State) {
    && |s.objects| <= |s'.objects|
    && forall r | 0 <= r < |s.objects| ::
         s'.objects[r].key == s.objects[r].key && (!s.objects[r].valid ==> !s'.objects[r].valid)
  }

  lemma StepKeepsStale(s: State, step: Step, maxSize: nat, byWeight: bool, segmentSizes: map<Key, nat>)
    requires OneValid(s) && Enabled(s, step, maxSize, byWeight, segmentSizes)
    ensures StaleStays(s, Next(s, step, maxSize, byWeight, segmentSizes))
  {
  }

  /** `states` are the states of a run, from the empty policy on. */
  ghost predicate IsRun(states: seq<State>, steps: seq<Step>, maxSize: nat, byWeight: bool, segmentSizes: map<Key, nat>) {
    && |states| == |steps| + 1 && states[0] == State([], multiset{}, map[], map[], maxSize)
    && forall i | 0 <= i < |steps| :: Takes(states[i], steps[i], states[i + 1], maxSize, byWeight, segmentSizes)
  }

  ghost predicate Takes(s: State, step: Step, s': State, maxSize: nat, byWeight: bool, segmentSizes: map<Key, nat>) {
    && OneValid(s) && Enabled(s, step, maxSize, byWeight, segmentSizes)
    && s' == Next(s, step, maxSize, byWeight, segmentSizes)
  }

  /** The lazy-heap invariant over every run. */
  lemma {:induction false} RunKeepsOk(states: seq<State>, steps: seq<Step>, maxSize: nat, byWeight: bool,
                                      segmentSizes: map<Key, nat>, i: nat)
    requires IsRun(states, steps, maxSize, byWeight, segmentSizes) && i < |states|
    ensures Ok(states[i], maxSize)
    decreases i
  {
    if i > 0 {
      RunKeepsOk(states, steps, maxSize, byWeight, segmentSizes, i - 1);
      assert Takes(states[i - 1], steps[i - 1], states[i], maxSize, byWeight, segmentSizes);
      StepKeepsOk(states[i - 1], steps[i - 1], maxSize, byWeight, segmentSizes);
    }
  }

  /** An entry that went stale is stale at every later point of the run. */
  lemma {:induction false} StaleNeverRevives(states: seq<State>, steps: seq<Step>, maxSize: nat, byWeight: bool,
                                             segmentSizes: map<Key, nat>, i: nat, j: nat)
    requires IsRun(states, steps, maxSize, byWeight, segmentSizes) && i <= j < |states|
    ensures StaleStays(states[i], states[j])
    decreases j
  {
    if i < j {
      StaleNeverRevives(states, steps, maxSize, byWeight, segmentSizes, i, j - 1);
      assert Takes(states[j - 1], steps[j - 1], states[j], maxSize, byWeight, segmentSizes);
      StepKeepsStale(states[j - 1], steps[j - 1], maxSize, byWeight, segmentSizes);
      StaleStaysTransitive(states[i], states[j - 1], states[j]);
    }
  }

  lemma StaleStaysTransitive(a: State, b: State, c: State)
    requires StaleStays(a, b) && StaleStays(b, c)
    ensures StaleStays(a, c)
  {
  }

  // ---------------------------------------------------------------------------
  // The policy object

  datatype StoreResult = Threw | Rejected | Stored(removed: seq<Ref>)

  class LazyHeapCachingPolicy {
    const maxSize: nat
    const byWeight: bool
    const allowFetchSegments: bool        // LFU-S only; always set for W-LFU
    const segmentSizes: map<Key, nat>
    var objects: seq<SegmentKey>
    var heap: seq<Ref>
    var keySetInCache: map<Key, Ref>
    var keySet: map<Key, Ref>
    var freeSize: nat
    var weightUpdatedKeys: set<Key>

    ghost function Now(): State
      reads this
    {
      State(objects, multiset(heap), keySetInCache, keySet, freeSize)
    }

    ghost predicate Valid()
      reads this
    {
      Ok(Now(), maxSize)
    }

    constructor (maxSize: nat, byWeight: bool, allowFetchSegments: bool, segmentSizes: map<Key, nat>)
      ensures Valid() && Now() == State([], multiset{}, map[], map[], maxSize) && weightUpdatedKeys == {}
      ensures this.maxSize == maxSize && this.byWeight == byWeight
      ensures this.allowFetchSegments == allowFetchSegments && this.segmentSizes == segmentSizes
    {
      this.maxSize, this.byWeight, this.segmentSizes := maxSize, byWeight, segmentSizes;
      this.allowFetchSegments := allowFetchSegments;
      objects, heap, keySetInCache, keySet, freeSize, weightUpdatedKeys := [], [], map[], map[], maxSize, {};
    }

    /** A use of the key object `key`. A second use throws if the segment's size is unknown. */
    method OnLoad(key: SegmentKey) returns (threw: bool)
      requires Valid() && key.valid
      modifies this`objects, this`heap, this`keySetInCache, this`keySet
      ensures Valid()
      ensures threw <==> key.key in old(keySet) && key.key !in segmentSizes
      ensures Now() == if threw then old(Now()) else Next(old(Now()), Load(key), maxSize, byWeight, segmentSizes)
      ensures !threw ==> key.key in keySet && keySet[key.key] < |objects|
      ensures !threw && key.key !in old(keySet) ==> objects[keySet[key.key]] == key && keySetInCache == old(keySetInCache)
      ensures !threw && key.key in old(keySet) ==> HitCounted(old(objects[keySet[key.key]]), objects[keySet[key.key]], segmentSizes[key.key])
    {
      var k := key.key;
      threw := false;
      if k in keySet {
        if k !in segmentSizes {
          return true;
        }
        UseKeepsOk(Now(), maxSize, k, segmentSizes[k]);
        UseCountsHit(Now(), k, segmentSizes[k]);
        UseKey(k, segmentSizes[k]);
      } else {
        MeetKeepsOk(Now(), maxSize, key);
        AddKey(key);
      }
    }

    method AddKey(key: SegmentKey)
      modifies this`objects, this`keySet
      ensures Now() == Meet(old(Now()), key)
    {
      keySet := keySet[key.key := |objects|];
      objects := objects + [key];
    }

    /** Counts a hit; the entry of a cached key is invalidated and a copy pushed. */
    method UseKey(k: Key, size: nat)
      requires k in keySet && keySet[k] < |objects|
      modifies this`objects, this`heap, this`keySetInCache, this`keySet
      ensures Now() == Use(old(Now()), k, size)
    {
      var r := keySet[k];
      objects := objects[r := Hit(objects[r], size)];
      if k in keySetInCache {
        objects := objects[r := objects[r].(valid := false)];
        var copy := |objects|;
        objects := objects + [objects[r].(valid := true)];
        heap := Push(heap, copy);
        keySetInCache := keySetInCache[k := copy];
        keySet := keySet[k := copy];
      }
    }

    /** A segment of size `size` was fetched and may be cached. */
    method OnStore(k: Key, size: nat) returns (r: StoreResult)
      requires Valid() && k !in keySetInCache
      modifies this`objects, this`heap, this`keySetInCache, this`freeSize
      ensures Valid()
      ensures r.Threw? <==> allowFetchSegments && k !in keySet
      ensures r.Threw? || !allowFetchSegments ==> Now() == old(Now()) && !r.Stored?
      ensures allowFetchSegments && !r.Threw? ==> Stores(old(Now()), Now(), maxSize, byWeight, k, size, r)
      ensures k in keySet ==> keySet[k] < |objects|
      ensures k in keySet && allowFetchSegments ==>
                objects[keySet[k]].size == if old(objects[keySet[k]].size) == 0 then size else old(objects[keySet[k]].size)
      ensures k in keySet && r.Stored? ==> AllWorthLess(objects, r.removed, byWeight, keySet[k])
      ensures k in keySet && allowFetchSegments && r.Rejected? && objects[keySet[k]].size <= maxSize ==>
                SomeWorthAsMuch(objects, keySetInCache, byWeight, keySet[k])
    {
      if !allowFetchSegments {
        return Rejected;
      }
      if k !in keySet {
        return Threw;
      }
      SizedKeepsOk(Now(), maxSize, k, size);
      var incoming := keySet[k];
      if objects[incoming].size == 0 {
        objects := objects[incoming := objects[incoming].(size := size)];
      }
      ghost var s := Now();
      assert s == Sized(old(Now()), k, size);
      if maxSize < objects[incoming].size {
        return Rejected;
      }
      r := StoreSized(k, incoming, s);
    }

    method StoreSized(k: Key, incoming: Ref, ghost s: State) returns (r: StoreResult)
      requires s == Now() && Valid() && k in keySet && keySet[k] == incoming && k !in keySetInCache
      requires objects[incoming].size <= maxSize
      modifies this`heap, this`keySetInCache, this`freeSize
      ensures Valid() && !r.Threw?
      ensures r.Rejected? ==> Rejects(s, Now(), byWeight, k)
      ensures r.Stored? ==> Accepts(s, Now(), byWeight, k, r.removed)
      ensures r.Stored? ==> AllWorthLess(objects, r.removed, byWeight, incoming)
      ensures r.Rejected? ==> SomeWorthAsMuch(objects, keySetInCache, byWeight, incoming)
    {
      var ok, heap', cached', free', removed := MakeRoom(objects, heap, keySetInCache, freeSize, maxSize, byWeight, incoming, s);
      if !ok {
        RejectedIsOk(s, maxSize, multiset(heap'));
        heap, keySetInCache := heap', cached';
        return Rejected;
      }
      FilledIsOk(s, maxSize, multiset(heap'), cached', free', removed, byWeight, k);
      FilledAccepts(s, maxSize, multiset(heap'), cached', free', removed, byWeight, k);
      Fill(k, heap', cached', free');
      r := Stored(removed);
    }

    method Fill(k: Key, heap': seq<Ref>, cached': map<Key, Ref>, free': nat)
      requires k in keySet && keySet[k] < |objects| && objects[keySet[k]].size <= free'
      modifies this`heap, this`keySetInCache, this`freeSize
      ensures Now() == Filled(old(Now()), multiset(heap'), cached', free', k)
    {
      freeSize := free';
      heap := Push(heap', keySet[k]);
      keySetInCache := cached'[k := keySet[k]];
      freeSize := freeSize - objects[keySet[k]].size;
    }

    /** W-LFU: adds the weights that come with a query, once per key; it throws at the first key that
        is not known. */
    method OnWeight(weights: seq<(Key, real)>) returns (threw: bool)
      requires Valid()
      modifies this`objects, this`weightUpdatedKeys
      ensures Valid()
      ensures Weighed(Now(), weightUpdatedKeys, threw) == WeighAll(old(Now()), old(weightUpdatedKeys), weights)
    {
      threw := false;
      for i := 0 to |weights|
        invariant Valid() && Weighed(Now(), weightUpdatedKeys, false) == WeighAll(old(Now()), old(weightUpdatedKeys), weights[..i])
      {
        assert weights[..i + 1][..i] == weights[..i];
        threw := WeighOne(weights[i].0, weights[i].1);
        if threw {
          ThrewStays(old(Now()), old(weightUpdatedKeys), weights, i + 1);
          return;
        }
      }
      assert weights[..|weights|] == weights;
    }

    method WeighOne(k: Key, w: real) returns (threw: bool)
      requires Valid()
      modifies this`objects, this`weightUpdatedKeys
      ensures Valid()
      ensures Weighed(Now(), weightUpdatedKeys, threw) == WeighNext(Weighed(old(Now()), old(weightUpdatedKeys), false), k, w)
    {
      threw := false;
      if k !in weightUpdatedKeys {
        if k !in keySet {
          return true;
        }
        WeighKeepsOk(Now(), maxSize, k, w);
        AddWeightTo(k, w);
        weightUpdatedKeys := weightUpdatedKeys + {k};
      }
    }

    method AddWeightTo(k: Key, w: real)
      requires k in keySet && keySet[k] < |objects|
      modifies this`objects
      ensures Now() == Weigh(old(Now()), k, w)
    {
      objects := objects[keySet[k] := objects[keySet[k]].(value := objects[keySet[k]].value + w)];
    }

    /** A new query may add to the weights again. */
    method OnNewQuery()
      modifies this`weightUpdatedKeys
      ensures weightUpdatedKeys == {}
    {
      weightUpdatedKeys := {};
    }
  }

  /** All or nothing: a rejected store may drop stale entries and does nothing else. */
  ghost predicate Rejects(s: State, s': State, byWeight: bool, k: Key) {
    k in s.known && s' == s.(heap := s'.heap) && Popped(s, s'.heap, []) && Unbeaten(s, byWeight, s.known[k])
  }

  /** An accepted store: exactly the victims go, and only as many as it takes. */
  ghost predicate Accepts(s: State, s': State, byWeight: bool, k: Key, removed: seq<Ref>) {
    && k in s.known && Victims(s, removed, byWeight, s.known[k])
    && s'.objects == s.objects && s'.known == s.known
    && s'.cached == (s.cached - KeysOf(s.objects, removed))[k := s.known[k]]
    && s'.free + s.objects[s.known[k]].size == s.free + Sum(KeysOf(s.objects, removed), SizeIn(s))
    && NeededLast(s.objects, s'.free + s.objects[s.known[k]].size, removed, s.known[k])
    && s.known[k] in s'.heap && Popped(s, s'.heap - multiset{s.known[k]}, removed)
  }

  lemma FilledAccepts(s: State, maxSize: nat, heap: multiset<Ref>, cached: map<Key, Ref>, free: nat, removed: seq<Ref>,
                      byWeight: bool, k: Key)
    requires Ok(s, maxSize) && k in s.known && s.objects[s.known[k]].size <= free
    requires Looping(s, heap, cached, free, removed, byWeight, s.known[k])
    ensures Accepts(s, Filled(s, heap, cached, free, k), byWeight, k, removed)
  {
  }

  ghost predicate Stores(s: State, s': State, maxSize: nat, byWeight: bool, k: Key, size: nat, r: StoreResult) {
    && k in s.known && s.known[k] < |s.objects|
    && var sized := Sized(s, k, size);
       if sized.objects[s.known[k]].size > maxSize then r.Rejected? && s' == sized
       else match r
            case Threw => false
            case Rejected => Rejects(sized, s', byWeight, k)
            case Stored(removed) => Accepts(sized, s', byWeight, k, removed)
  }

  /** What `OnStore` does is a step of a run. */
  lemma RejectIsStep(s: State, s': State, maxSize: nat, byWeight: bool, segmentSizes: map<Key, nat>, k: Key, size: nat)
    requires Ok(s, maxSize) && k !in s.cached && Stores(s, s', maxSize, byWeight, k, size, Rejected)
    ensures Takes(s, Reject(k, size, s'.heap), s', maxSize, byWeight, segmentSizes)
  {
  }

  lemma StoreIsStep(s: State, s': State, maxSize: nat, byWeight: bool, segmentSizes: map<Key, nat>, k: Key, size: nat, removed: seq<Ref>)
    requires OneValid(s) && k !in s.cached && Stores(s, s', maxSize, byWeight, k, size, Stored(removed))
    ensures Takes(s, StoreStep(s, s', k, size, removed), s', maxSize, byWeight, segmentSizes)
  {
    StoredIsFilled(Sized(s, k, size), s', byWeight, k, removed);
  }

  lemma StoredIsFilled(s: State, s': State, byWeight: bool, k: Key, removed: seq<Ref>)
    requires Accepts(s, s', byWeight, k, removed)
    ensures s' == Filled(s, s'.heap - multiset{s.known[k]}, s.cached - KeysOf(s.objects, removed),
                         s'.free + s.objects[s.known[k]].size, k)
  {
    assert s'.heap == s'.heap - multiset{s.known[k]} + multiset{s.known[k]};
  }

  /** The step that an accepted store amounts to. */
  ghost function StoreStep(s: State, s': State, k: Key, size: nat, removed: seq<Ref>): Step
    requires k in s.known && s.known[k] < |s.objects| && forall r | r in removed :: r < |s.objects|
  {
    var sized := Sized(s, k, size);
    Accept(k, size, s'.heap - multiset{s.known[k]}, s.cached - KeysOf(sized.objects, removed),
           s'.free + sized.objects[s.known[k]].size, removed)
  }
}
