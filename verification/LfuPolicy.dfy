/** The LFU caching policy: the cached keys in one list per number of hits, a map from keys to
    list iterators, and the set of hit numbers whose list is not empty. */
module LfuPolicy {
  import opened Collections
  import opened Segments
  import opened Sums

  /** A list node; its `id` stands for the iterator to it. */
  datatype Node = Node(id: nat, key: Key)

  type Bucket = seq<Node>
  type Buckets = map<nat, Bucket>

  // ---------------------------------------------------------------------------
  // The indexes agree

  /** A bucket holds nodes of keys whose place is here, each once. */
  ghost predicate BucketOk(b: Bucket, f: nat, iterators: map<Key, nat>, place: map<Key, nat>) {
    && b != [] && f > 0
    && (forall i | 0 <= i < |b| :: NodeOk(b[i], f, iterators, place))
    && (forall i, j | 0 <= i < j < |b| :: b[i].key != b[j].key)
  }

  ghost predicate NodeOk(n: Node, f: nat, iterators: map<Key, nat>, place: map<Key, nat>) {
    n.key in iterators && iterators[n.key] == n.id && n.key in place && place[n.key] == f
  }

  ghost predicate InBucket(b: Bucket, k: Key) {
    exists i | 0 <= i < |b| :: b[i].key == k
  }

  ghost predicate Placed(buckets: Buckets, place: map<Key, nat>, k: Key) {
    k in place && place[k] in buckets && InBucket(buckets[place[k]], k)
  }

  /** Every cached key is in exactly one bucket, the one `place` names, and its iterator points
      there. */
  ghost predicate Indexed(buckets: Buckets, iterators: map<Key, nat>, place: map<Key, nat>) {
    && place.Keys == iterators.Keys
    && (forall f | f in buckets :: BucketOk(buckets[f], f, iterators, place))
    && (forall k | k in iterators :: Placed(buckets, place, k))
  }

  ghost predicate IdsDiffer(iterators: map<Key, nat>, nextId: nat) {
    && (forall k | k in iterators :: iterators[k] < nextId)
    && (forall k, l | k in iterators && l in iterators && iterators[k] == iterators[l] :: k == l)
  }

  // ----- erasing -----

  function Without(b: Bucket, i: nat): Bucket
    requires i < |b|
  {
    b[..i] + b[i + 1..]
  }

  ghost function Erased(buckets: Buckets, f: nat, i: nat): Buckets
    requires f in buckets && i < |buckets[f]|
  {
    if |buckets[f]| == 1 then buckets - {f} else buckets[f := Without(buckets[f], i)]
  }

  lemma WithoutOk(b: Bucket, f: nat, iterators: map<Key, nat>, place: map<Key, nat>, i: nat)
    requires BucketOk(b, f, iterators, place) && i < |b| && |b| > 1
    ensures BucketOk(Without(b, i), f, iterators - {b[i].key}, place - {b[i].key})
    ensures forall k | InBucket(b, k) && k != b[i].key :: InBucket(Without(b, i), k)
  {
    var b' := Without(b, i);
    forall j | 0 <= j < |b'|
      ensures b'[j] == b[if j < i then j else j + 1]
    {
    }
    forall k | InBucket(b, k) && k != b[i].key
      ensures InBucket(b', k)
    {
      var j :| 0 <= j < |b| && b[j].key == k;
      assert b'[if j < i then j else j - 1].key == k;
    }
  }

  lemma OthersOk(b: Bucket, f: nat, iterators: map<Key, nat>, place: map<Key, nat>, k: Key)
    requires BucketOk(b, f, iterators, place) && k in place && place[k] != f
    ensures BucketOk(b, f, iterators - {k}, place - {k})
  {
  }

  lemma EraseKeepsIndexed(buckets: Buckets, iterators: map<Key, nat>, place: map<Key, nat>, f: nat, i: nat)
    requires Indexed(buckets, iterators, place) && f in buckets && i < |buckets[f]|
    ensures var k := buckets[f][i].key; Indexed(Erased(buckets, f, i), iterators - {k}, place - {k})
  {
    var b, k := buckets[f], buckets[f][i].key;
    var buckets' := Erased(buckets, f, i);
    assert NodeOk(b[i], f, iterators, place);
    forall g | g in buckets'
      ensures BucketOk(buckets'[g], g, iterators - {k}, place - {k})
    {
      assert BucketOk(buckets[g], g, iterators, place);
      if g == f {
        WithoutOk(b, f, iterators, place, i);
      } else {
        OthersOk(buckets[g], g, iterators, place, k);
      }
    }
    forall l | l in iterators && l != k
      ensures Placed(buckets', place - {k}, l)
    {
      EraseKeepsPlaced(buckets, iterators, place, f, i, l);
    }
  }

  lemma EraseKeepsPlaced(buckets: Buckets, iterators: map<Key, nat>, place: map<Key, nat>, f: nat, i: nat, l: Key)
    requires f in buckets && BucketOk(buckets[f], f, iterators, place) && i < |buckets[f]|
    requires Placed(buckets, place, l) && l != buckets[f][i].key
    ensures Placed(Erased(buckets, f, i), place - {buckets[f][i].key}, l)
  {
    if place[l] == f {
      if |buckets[f]| > 1 {
        WithoutOk(buckets[f], f, iterators, place, i);
      }
    }
  }

  // ----- inserting -----

  ghost function Inserted(buckets: Buckets, f: nat, n: Node): Buckets {
    buckets[f := (if f in buckets then buckets[f] else []) + [n]]
  }

  lemma InsertKeepsIndexed(buckets: Buckets, iterators: map<Key, nat>, place: map<Key, nat>, f: nat, n: Node)
    requires Indexed(buckets, iterators, place) && f > 0 && n.key !in iterators
    ensures Indexed(Inserted(buckets, f, n), iterators[n.key := n.id], place[n.key := f])
  {
    var buckets', iterators', place' := Inserted(buckets, f, n), iterators[n.key := n.id], place[n.key := f];
    forall g | g in buckets'
      ensures BucketOk(buckets'[g], g, iterators', place')
    {
      if g == f {
        AppendedOk(if f in buckets then buckets[f] else [], f, iterators, place, n);
      } else {
        KeptOk(buckets[g], g, iterators, place, n, f);
      }
    }
    forall k | k in iterators'
      ensures Placed(buckets', place', k)
    {
      InsertKeepsPlaced(buckets, place, f, n, k);
    }
  }

  lemma KeptOk(b: Bucket, g: nat, iterators: map<Key, nat>, place: map<Key, nat>, n: Node, f: nat)
    requires BucketOk(b, g, iterators, place) && n.key !in iterators
    ensures BucketOk(b, g, iterators[n.key := n.id], place[n.key := f])
  {
  }

  lemma AppendedOk(b: Bucket, f: nat, iterators: map<Key, nat>, place: map<Key, nat>, n: Node)
    requires b == [] || BucketOk(b, f, iterators, place)
    requires f > 0 && n.key !in iterators
    ensures BucketOk(b + [n], f, iterators[n.key := n.id], place[n.key := f])
  {
  }

  lemma InsertKeepsPlaced(buckets: Buckets, place: map<Key, nat>, f: nat, n: Node, k: Key)
    requires k == n.key || Placed(buckets, place, k)
    ensures Placed(Inserted(buckets, f, n), place[n.key := f], k)
  {
    var b := if f in buckets then buckets[f] else [];
    if k == n.key {
      assert (b + [n])[|b|].key == k;
    } else if place[k] == f {
      var i :| 0 <= i < |b| && b[i].key == k;
      assert (b + [n])[i].key == k;
    }
  }

  /** A cached key must not be inserted again: its bucket would hold two nodes for it. */
  lemma InsertedTwiceDisagrees(buckets: Buckets, iterators: map<Key, nat>, place: map<Key, nat>, n: Node)
    requires Indexed(buckets, iterators, place) && n.key in iterators
    ensures !Indexed(Inserted(buckets, place[n.key], n), iterators[n.key := n.id], place)
  {
    assert Placed(buckets, place, n.key);
    var b := buckets[place[n.key]];
    var i :| 0 <= i < |b| && b[i].key == n.key;
    var b' := Inserted(buckets, place[n.key], n)[place[n.key]];
    assert b'[i].key == b'[|b|].key;
    assert !BucketOk(b', place[n.key], iterators[n.key := n.id], place);
  }

  // ---------------------------------------------------------------------------
  // Erasing and inserting, as coded

  /** `minFreq_` is 0 before the first insertion and a hit number in use from then on; it need not
      be the least one. */
  ghost predicate MinOk(minFreq: nat, freqSet: set<nat>) {
    if freqSet == {} then minFreq == 0 else minFreq in freqSet
  }

  ghost predicate IsLeast(f: nat, freqs: set<nat>) {
    f in freqs && forall g | g in freqs :: f <= g
  }

  lemma {:induction false} LeastExists(freqs: set<nat>) returns (f: nat)
    requires freqs != {}
    ensures IsLeast(f, freqs)
    decreases freqs
  {
    var x :| x in freqs;
    f := x;
    if freqs - {x} != {} {
      var g := LeastExists(freqs - {x});
      f := if x < g then x else g;
      assert forall h | h in freqs :: h == x || h in freqs - {x};
    } else {
      assert forall h | h in freqs :: h == x || h in freqs - {x};
    }
  }

  ghost function LeastOf(freqs: set<nat>): (f: nat)
    requires freqs != {}
    ensures IsLeast(f, freqs)
  {
    assert exists f :: IsLeast(f, freqs) by {
      var f := LeastExists(freqs);
    }
    var f :| IsLeast(f, freqs);
    f
  }

  method Least(freqs: set<nat>) returns (least: nat)
    requires freqs != {}
    ensures least == LeastOf(freqs)
  {
    least :| least in freqs;
    var rest := freqs;
    while rest != {}
      invariant rest <= freqs && least in freqs && forall f | f in freqs && f !in rest :: least <= f
      decreases |rest|
    {
      var f :| f in rest;
      if f < least {
        least := f;
      }
      rest := rest - {f};
    }
  }

  /** `minFreq_` stays while its bucket does, and is the least hit number left otherwise. */
  ghost predicate MinAfter(minFreq: nat, freqs: set<nat>, minFreq': nat) {
    if minFreq in freqs then minFreq' == minFreq else IsLeast(minFreq', freqs)
  }

  /** `eraseFreqMap`. When the last bucket becomes empty, `minFreq_` is read from an empty set:
      nothing is known from there on. */
  method EraseFreqMap(buckets: Buckets, freqSet: set<nat>, minFreq: nat, f: nat, i: nat)
    returns (defined: bool, buckets': Buckets, freqSet': set<nat>, minFreq': nat)
    requires f in buckets && i < |buckets[f]| && freqSet == buckets.Keys && MinOk(minFreq, freqSet)
    ensures defined <==> |buckets[f]| > 1 || freqSet != {f}
    ensures defined ==> buckets' == Erased(buckets, f, i) && freqSet' == buckets'.Keys && MinOk(minFreq', freqSet') && freqSet' != {}
    ensures defined ==> MinAfter(minFreq, freqSet', minFreq')
  {
    buckets', freqSet', minFreq' := buckets[f := Without(buckets[f], i)], freqSet, minFreq;
    if buckets'[f] == [] {
      buckets' := buckets' - {f};
      assert buckets' == buckets - {f};
      freqSet' := freqSet - {f};
      if minFreq == f {
        if freqSet' == {} {
          return false, buckets', freqSet', 0;
        }
        minFreq' := Least(freqSet');
      }
    }
    defined := true;
  }

  method Insert(buckets: Buckets, freqSet: set<nat>, minFreq: nat, f: nat, n: Node)
    returns (buckets': Buckets, freqSet': set<nat>, minFreq': nat)
    requires freqSet == buckets.Keys && MinOk(minFreq, freqSet) && f > 0
    ensures buckets' == Inserted(buckets, f, n) && freqSet' == buckets'.Keys && MinOk(minFreq', freqSet')
    ensures minFreq' == if minFreq == 0 then f else minFreq
  {
    buckets' := if f in buckets then buckets else buckets[f := []];
    buckets' := buckets'[f := buckets'[f] + [n]];
    freqSet' := freqSet + {f};
    minFreq' := if minFreq == 0 then f else minFreq;
  }

  // ---------------------------------------------------------------------------
  // Searching for space

  datatype Meta = Meta(size: nat, hitNum: nat)

  ghost function SizeIn(known: map<Key, Meta>): Key -> nat {
    k => if k in known then known[k].size else 0
  }

  /** `taken` lists the keys `keys`, each once; `low` is their size. */
  ghost predicate Taking(taken: seq<Key>, low: nat, keys: set<Key>, known: map<Key, Meta>) {
    Distinct(taken) && Elements(taken) == keys && low == Sum(keys, SizeIn(known))
  }

  lemma TakeOne(taken: seq<Key>, low: nat, keys: set<Key>, known: map<Key, Meta>, k: Key)
    requires Taking(taken, low, keys, known) && k !in keys && k in known
    ensures Taking(taken + [k], low + known[k].size, keys + {k}, known)
  {
    SumAdd(keys, k, SizeIn(known));
    assert Elements(taken + [k]) == Elements(taken) + {k};
    assert k !in taken;
  }

  ghost function KeysIn(b: Bucket): set<Key> {
    set n | n in b :: n.key
  }

  lemma KeysInAppend(b: Bucket, i: nat)
    requires i < |b|
    ensures KeysIn(b[..i + 1]) == KeysIn(b[..i]) + {b[i].key}
  {
  }

  // ----- the order of the search -----

  ghost function KeySeq(b: Bucket): seq<Key> {
    seq(|b|, i requires 0 <= i < |b| => b[i].key)
  }

  /** The cached keys with the hit numbers `rest`, in the order in which the search looks at them:
      first those with `f` hits, then those with the least of the remaining numbers, and so on. */
  ghost function SearchOrder(buckets: Buckets, rest: set<nat>, f: nat): seq<Key>
    requires rest <= buckets.Keys
    decreases rest
  {
    if f !in rest then []
    else
      var rest' := rest - {f};
      KeySeq(buckets[f]) + if rest' == {} then [] else SearchOrder(buckets, rest', LeastOf(rest'))
  }

  /** The hit number that comes last: the greatest one apart from `f`, or `f` if it is alone. */
  ghost predicate ComesLast(last: nat, rest: set<nat>, f: nat) {
    if rest == {f} then last == f else last in rest && last != f && forall g | g in rest && g != f :: g <= last
  }

  /** The key looked at last is at the end of that bucket. */
  lemma {:induction false} OrderEndsAt(buckets: Buckets, rest: set<nat>, f: nat, last: nat)
    requires rest <= buckets.Keys && f in rest && ComesLast(last, rest, f)
    requires forall g | g in buckets :: buckets[g] != []
    ensures var order, b := SearchOrder(buckets, rest, f), buckets[last];
            order != [] && order[|order| - 1] == b[|b| - 1].key
    decreases rest
  {
    var rest' := rest - {f};
    if rest' == {} {
      assert rest == {f};
    } else {
      var g := LeastOf(rest');
      assert rest != {f} && last in rest';
      if rest' != {g} {
        var h :| h in rest' && h != g;
        assert g < h <= last;
      }
      OrderEndsAt(buckets, rest', g, last);
    }
  }

  /** The keys with `f` hits, oldest first. */
  ghost function ListAt(buckets: Buckets, f: nat): seq<Key> {
    if f in buckets then KeySeq(buckets[f]) else []
  }

  /** The keys that are not in `gone`, in the same order. */
  ghost function Drop(keys: seq<Key>, gone: set<Key>): seq<Key> {
    if keys == [] then [] else (if keys[0] in gone then [] else [keys[0]]) + Drop(keys[1..], gone)
  }

  lemma {:induction false} DropAppend(a: seq<Key>, b: seq<Key>, gone: set<Key>)
    ensures Drop(a + b, gone) == Drop(a, gone) + Drop(b, gone)
    decreases |a|
  {
    if a == [] {
      assert a + b == b;
    } else {
      assert (a + b)[0] == a[0] && (a + b)[1..] == a[1..] + b;
      DropAppend(a[1..], b, gone);
    }
  }

  lemma {:induction false} DropNone(keys: seq<Key>, gone: set<Key>)
    requires forall i | 0 <= i < |keys| :: keys[i] !in gone
    ensures Drop(keys, gone) == keys
    decreases |keys|
  {
    if keys != [] {
      assert keys == [keys[0]] + keys[1..];
      DropNone(keys[1..], gone);
    }
  }

  lemma {:induction false} DropTwice(keys: seq<Key>, a: set<Key>, b: set<Key>)
    ensures Drop(Drop(keys, a), b) == Drop(keys, a + b)
    decreases |keys|
  {
    if keys != [] {
      DropTwice(keys[1..], a, b);
      DropAppend(if keys[0] in a then [] else [keys[0]], Drop(keys[1..], a), b);
      assert [keys[0]][1..] == [];
    }
  }

  lemma {:induction false} DropHas(keys: seq<Key>, gone: set<Key>, k: Key)
    ensures k in Drop(keys, gone) <==> k in keys && k !in gone
    decreases |keys|
  {
    if keys != [] {
      assert keys == [keys[0]] + keys[1..];
      DropHas(keys[1..], gone, k);
    }
  }

  lemma KeySeqAppend(a: Bucket, b: Bucket)
    ensures KeySeq(a + b) == KeySeq(a) + KeySeq(b)
  {
  }

  lemma DropHead(k: Key, back: seq<Key>)
    requires k !in back
    ensures Drop([k] + back, {k}) == back
  {
    assert ([k] + back)[1..] == back;
    DropNone(back, {k});
  }

  lemma DropOne(front: seq<Key>, k: Key, back: seq<Key>)
    requires k !in front && k !in back
    ensures Drop(front + ([k] + back), {k}) == front + back
  {
    calc {
      Drop(front + ([k] + back), {k});
      { DropAppend(front, [k] + back, {k}); }
      Drop(front, {k}) + Drop([k] + back, {k});
      { DropNone(front, {k}); DropHead(k, back); }
      front + back;
    }
  }

  lemma WithoutDrops(b: Bucket, i: nat)
    requires i < |b| && forall j | 0 <= j < |b| && j != i :: b[j].key != b[i].key
    ensures KeySeq(Without(b, i)) == Drop(KeySeq(b), {b[i].key})
  {
    var k, front, back := b[i].key, b[..i], b[i + 1..];
    calc {
      KeySeq(b);
      { assert b == front + ([b[i]] + back); }
      KeySeq(front + ([b[i]] + back));
      { KeySeqAppend(front, [b[i]] + back); KeySeqAppend([b[i]], back); }
      KeySeq(front) + (KeySeq([b[i]]) + KeySeq(back));
      { assert KeySeq([b[i]]) == [k]; }
      KeySeq(front) + ([k] + KeySeq(back));
    }
    NotInPart(b, 0, i, k);
    NotInPart(b, i + 1, |b|, k);
    assert b[0..i] == front;
    DropOne(KeySeq(front), k, KeySeq(back));
    KeySeqAppend(front, back);
  }

  lemma NotInPart(b: Bucket, from: nat, to: nat, k: Key)
    requires from <= to <= |b| && forall j | from <= j < to :: b[j].key != k
    ensures k !in KeySeq(b[from..to])
  {
  }

  lemma EraseDrops(buckets: Buckets, iterators: map<Key, nat>, place: map<Key, nat>, f: nat, i: nat, g: nat)
    requires Indexed(buckets, iterators, place) && f in buckets && i < |buckets[f]|
    ensures ListAt(Erased(buckets, f, i), g) == Drop(ListAt(buckets, g), {buckets[f][i].key})
  {
    assert NodeOk(buckets[f][i], f, iterators, place);
    if g == f {
      assert BucketOk(buckets[f], f, iterators, place);
      WithoutDrops(buckets[f], i);
    } else if g in buckets {
      assert forall j | 0 <= j < |buckets[g]| :: NodeOk(buckets[g][j], g, iterators, place);
      DropNone(KeySeq(buckets[g]), {buckets[f][i].key});
    }
  }

  datatype Verdict = Sufficient | Insufficient | Unknown

  /** What a search promises about the keys it would remove. */
  ghost predicate Enough(taken: seq<Key>, low: nat, known: map<Key, Meta>, free: nat, size: nat) {
    && size <= low + free
    && (taken != [] ==> var last := taken[|taken| - 1]; low + free < size + SizeIn(known)(last))
  }

  ghost predicate AllLess(keys: set<Key>, known: map<Key, Meta>, hits: nat) {
    forall k | k in keys :: k in known && known[k].hitNum < hits
  }

  /** The keys of a bucket are known, differ, and are not among those taken before. */
  ghost predicate Scannable(b: Bucket, known: map<Key, Meta>, keys: set<Key>) {
    && (forall i | 0 <= i < |b| :: b[i].key in known && b[i].key !in keys)
    && (forall i, j | 0 <= i < j < |b| :: b[i].key != b[j].key)
  }

  lemma NotYet(b: Bucket, known: map<Key, Meta>, keys: set<Key>, i: nat)
    requires Scannable(b, known, keys) && i < |b|
    ensures b[i].key !in keys + KeysIn(b[..i])
  {
  }

  /** The search stops at a key with too many hits, before it has made room. */
  ghost predicate Stops(order: seq<Key>, n: nat, known: map<Key, Meta>, free: nat, size: nat, hits: nat) {
    && n < |order| && order[n] in known && known[order[n]].hitNum >= hits
    && free + Sum(Elements(order[..n]), SizeIn(known)) < size && AllLess(Elements(order[..n]), known, hits)
  }

  /** The inner loop, over one bucket; `order` is the whole order of the search. */
  method Scan(b: Bucket, known: map<Key, Meta>, taken0: seq<Key>, low0: nat, ghost keys: set<Key>, free: nat, size: nat, hits: nat,
              ghost order: seq<Key>)
    returns (verdict: Verdict, taken: seq<Key>, low: nat)
    requires Scannable(b, known, keys) && Searched(taken0, low0, keys, known, free, size, hits)
    requires taken0 + KeySeq(b) <= order
    ensures verdict.Unknown? ==> Searched(taken, low, keys + KeysIn(b), known, free, size, hits) && taken == taken0 + KeySeq(b)
    ensures verdict.Sufficient? ==> Victims(taken, low, keys + KeysIn(b), known, free, size, hits) && taken <= order
    ensures verdict.Insufficient? ==> Stops(order, |taken|, known, free, size, hits)
  {
    taken, low := taken0, low0;
    assert keys + KeysIn(b[..0]) == keys;
    for i := 0 to |b|
      invariant Searched(taken, low, keys + KeysIn(b[..i]), known, free, size, hits)
      invariant taken == taken0 + KeySeq(b[..i])
    {
      ScanAt(b, taken0, order, i);
      var k := b[i].key;
      if known[k].hitNum < hits {
        NotYet(b, known, keys, i);
        KeysInAppend(b, i);
        TakeOne(taken, low, keys + KeysIn(b[..i]), known, k);
        assert keys + KeysIn(b[..i]) + {k} == keys + KeysIn(b[..i + 1]);
        taken := taken + [k];
        low := low + known[k].size;
        if low + free >= size {
          assert forall n | n in b[..i + 1] :: n in b;
          return Sufficient, taken, low;
        }
      } else {
        assert order[..|taken|] == taken;
        return Insufficient, taken, low;
      }
    }
    assert b[..|b|] == b;
    verdict := Unknown;
  }

  lemma ScanAt(b: Bucket, taken0: seq<Key>, order: seq<Key>, i: nat)
    requires taken0 + KeySeq(b) <= order && i < |b|
    ensures var taken := taken0 + KeySeq(b[..i]);
            && taken <= order && |taken| < |order| && order[|taken|] == b[i].key
            && taken + [b[i].key] == taken0 + KeySeq(b[..i + 1]) <= order
  {
    var taken := taken0 + KeySeq(b[..i]);
    assert taken + [b[i].key] == taken0 + KeySeq(b[..i + 1]);
    assert (taken0 + KeySeq(b))[|taken|] == b[i].key;
    forall j | 0 <= j < |taken| + 1
      ensures (taken + [b[i].key])[j] == order[j]
    {
      assert (taken0 + KeySeq(b))[j] == order[j];
    }
  }

  /** The cached keys with these hit numbers. */
  ghost function KeysAt(place: map<Key, nat>, freqs: set<nat>): set<Key> {
    set k | k in place && place[k] in freqs
  }

  /** The policy's knowledge fits the indexes: cached keys are known and placed by their hits. */
  ghost predicate PlacedByHits(place: map<Key, nat>, known: map<Key, Meta>) {
    forall k | k in place :: k in known && place[k] == known[k].hitNum
  }

  lemma KeysAtAll(buckets: Buckets, iterators: map<Key, nat>, place: map<Key, nat>, freqs: set<nat>)
    requires Indexed(buckets, iterators, place) && freqs == buckets.Keys
    ensures KeysAt(place, freqs) == iterators.Keys
  {
  }

  /** Keys that may go for `incoming`: cached, of strictly fewer hits, and just enough. */
  ghost predicate Victims(removable: seq<Key>, low: nat, cached: set<Key>, known: map<Key, Meta>, free: nat, size: nat, hits: nat) {
    && Taking(removable, low, Elements(removable), known) && Elements(removable) <= cached
    && AllLess(Elements(removable), known, hits) && Enough(removable, low, known, free, size)
  }

  /** The search over the hit numbers: `minFreq_` first, then the least of the remaining ones. It
      always comes to a verdict. */
  method FindSpace(buckets: Buckets, freqSet: set<nat>, minFreq: nat, known: map<Key, Meta>, free: nat, size: nat, hits: nat,
                   ghost iterators: map<Key, nat>, ghost place: map<Key, nat>)
    returns (ok: bool, removable: seq<Key>, low: nat)
    requires Indexed(buckets, iterators, place) && PlacedByHits(place, known)
    requires freqSet == buckets.Keys && MinOk(minFreq, freqSet)
    requires size <= free + Sum(iterators.Keys, SizeIn(known))
    ensures ok ==> Victims(removable, low, iterators.Keys, known, free, size, hits)
    ensures ok ==> removable <= SearchOrder(buckets, freqSet, minFreq)
    ensures !ok ==> Stops(SearchOrder(buckets, freqSet, minFreq), |removable|, known, free, size, hits)
  {
    ghost var order := SearchOrder(buckets, freqSet, minFreq);
    removable, low := [], 0;
    NothingTaken(iterators.Keys, known, free, size, hits);
    if free >= size {
      return true, removable, low;
    }
    var tmpFreqSet, tmpMinFreq := freqSet, minFreq;
    SearchStarts(buckets, freqSet, minFreq, known, free, size, hits, place);
    while tmpFreqSet != {}
      invariant Searching(buckets, freqSet, tmpFreqSet, tmpMinFreq, removable, low, known, free, size, hits, place, order)
      decreases |tmpFreqSet|
    {
      var verdict;
      verdict, removable, low := SearchBucket(buckets, freqSet, tmpFreqSet, tmpMinFreq, known, removable, low, free, size, hits,
                                              iterators, place, order);
      if !verdict.Unknown? {
        return verdict.Sufficient?, removable, low;
      }
      tmpFreqSet, tmpMinFreq := NextFreq(tmpFreqSet, tmpMinFreq);
    }
    SearchEnds(buckets, iterators, place, freqSet, removable, low, known, free, size);
    assert false;
  }

  ghost function After(rest: set<nat>, f: nat): nat {
    if rest - {f} == {} then f else LeastOf(rest - {f})
  }

  method NextFreq(rest: set<nat>, f: nat) returns (rest': set<nat>, f': nat)
    ensures rest' == rest - {f} && f' == After(rest, f)
  {
    rest', f' := rest - {f}, f;
    if rest' != {} {
      f' := Least(rest');
    }
  }

  /** The state of the search: the hit numbers `rest` are left, and `f` is next. */
  ghost predicate Searching(buckets: Buckets, freqs: set<nat>, rest: set<nat>, f: nat, taken: seq<Key>, low: nat, known: map<Key, Meta>,
                            free: nat, size: nat, hits: nat, place: map<Key, nat>, order: seq<Key>)
  {
    && rest <= freqs == buckets.Keys && (rest != {} ==> f in rest)
    && Searched(taken, low, KeysAt(place, freqs - rest), known, free, size, hits)
    && taken + SearchOrder(buckets, rest, f) == order
  }

  lemma SearchStarts(buckets: Buckets, freqs: set<nat>, f: nat, known: map<Key, Meta>, free: nat, size: nat, hits: nat, place: map<Key, nat>)
    requires freqs == buckets.Keys && MinOk(f, freqs) && free < size
    ensures Searching(buckets, freqs, freqs, f, [], 0, known, free, size, hits, place, SearchOrder(buckets, freqs, f))
  {
    assert KeysAt(place, freqs - freqs) == {};
    NothingTaken({}, known, free, size, hits);
  }

  /** Taking everything makes room for whatever fits the cache at all. */
  lemma SearchEnds(buckets: Buckets, iterators: map<Key, nat>, place: map<Key, nat>, freqs: set<nat>,
                   taken: seq<Key>, low: nat, known: map<Key, Meta>, free: nat, size: nat)
    requires Indexed(buckets, iterators, place) && freqs == buckets.Keys
    requires Taking(taken, low, KeysAt(place, freqs - {}), known)
    requires size <= free + Sum(iterators.Keys, SizeIn(known))
    ensures size <= low + free
  {
    assert freqs - {} == freqs;
    KeysAtAll(buckets, iterators, place, freqs);
  }

  lemma NothingTaken(cached: set<Key>, known: map<Key, Meta>, free: nat, size: nat, hits: nat)
    ensures free < size ==> Searched([], 0, {}, known, free, size, hits)
    ensures free >= size ==> Victims([], 0, cached, known, free, size, hits)
  {
  }

  method SearchBucket(buckets: Buckets, ghost freqs: set<nat>, ghost rest: set<nat>, f: nat, known: map<Key, Meta>,
                      taken0: seq<Key>, low0: nat, free: nat, size: nat, hits: nat,
                      ghost iterators: map<Key, nat>, ghost place: map<Key, nat>, ghost order: seq<Key>)
    returns (verdict: Verdict, taken: seq<Key>, low: nat)
    requires Indexed(buckets, iterators, place) && PlacedByHits(place, known)
    requires Searching(buckets, freqs, rest, f, taken0, low0, known, free, size, hits, place, order) && rest != {}
    ensures verdict.Unknown? ==>
              Searching(buckets, freqs, rest - {f}, After(rest, f), taken, low, known, free, size, hits, place, order)
    ensures verdict.Sufficient? ==> Victims(taken, low, iterators.Keys, known, free, size, hits) && taken <= order
    ensures verdict.Insufficient? ==> Stops(order, |taken|, known, free, size, hits)
  {
    NextBucket(buckets, iterators, place, known, freqs, rest, f);
    OrderNext(buckets, rest, f, taken0);
    verdict, taken, low := Scan(buckets[f], known, taken0, low0, KeysAt(place, freqs - rest), free, size, hits, order);
  }

  lemma OrderNext(buckets: Buckets, rest: set<nat>, f: nat, taken: seq<Key>)
    requires rest <= buckets.Keys && f in rest
    ensures taken + KeySeq(buckets[f]) <= taken + SearchOrder(buckets, rest, f)
    ensures taken + KeySeq(buckets[f]) + SearchOrder(buckets, rest - {f}, After(rest, f)) == taken + SearchOrder(buckets, rest, f)
  {
    var rest' := rest - {f};
    var tail := SearchOrder(buckets, rest', After(rest, f));
    assert SearchOrder(buckets, rest, f) == KeySeq(buckets[f]) + tail;
    Regroup(taken, KeySeq(buckets[f]), tail);
  }

  lemma Regroup(a: seq<Key>, b: seq<Key>, c: seq<Key>)
    ensures a + b + c == a + (b + c) && a + b <= a + (b + c)
  {
  }

  /** The next bucket's keys are new, and join those looked at before. */
  lemma NextBucket(buckets: Buckets, iterators: map<Key, nat>, place: map<Key, nat>, known: map<Key, Meta>,
                   freqs: set<nat>, rest: set<nat>, f: nat)
    requires Indexed(buckets, iterators, place) && PlacedByHits(place, known) && freqs == buckets.Keys && f in rest && rest <= freqs
    ensures Scannable(buckets[f], known, KeysAt(place, freqs - rest))
    ensures KeysAt(place, freqs - rest) + KeysIn(buckets[f]) == KeysAt(place, freqs - (rest - {f})) <= iterators.Keys
  {
  }

  ghost predicate Searched(removable: seq<Key>, low: nat, done: set<Key>, known: map<Key, Meta>, free: nat, size: nat, hits: nat) {
    Taking(removable, low, done, known) && AllLess(done, known, hits) && low + free < size
  }

  // ---------------------------------------------------------------------------
  // Removing and adding keys

  datatype Index = Index(buckets: Buckets, iterators: map<Key, nat>, freqSet: set<nat>, minFreq: nat)

  /** Everything about the indexes that holds between operations. */
  ghost predicate IndexOk(x: Index, place: map<Key, nat>, nextId: nat) {
    && Indexed(x.buckets, x.iterators, place) && IdsDiffer(x.iterators, nextId)
    && x.freqSet == x.buckets.Keys && MinOk(x.minFreq, x.freqSet)
  }

  /** Emptying the last bucket means removing the only key. */
  lemma LastBucket(buckets: Buckets, iterators: map<Key, nat>, place: map<Key, nat>, f: nat, i: nat)
    requires Indexed(buckets, iterators, place) && f in buckets && i < |buckets[f]|
    ensures (|buckets[f]| == 1 && buckets.Keys == {f}) <==> iterators.Keys == {buckets[f][i].key}
  {
    var k := buckets[f][i].key;
    assert BucketOk(buckets[f], f, iterators, place);
    assert NodeOk(buckets[f][i], f, iterators, place);
    if |buckets[f]| == 1 && buckets.Keys == {f} {
      forall l | l in iterators
        ensures l == k
      {
        assert Placed(buckets, place, l);
      }
    }
    if iterators.Keys == {k} {
      assert NodeOk(buckets[f][0], f, iterators, place);
      assert |buckets[f]| > 1 ==> NodeOk(buckets[f][1], f, iterators, place);
      forall g | g in buckets
        ensures g == f
      {
        assert BucketOk(buckets[g], g, iterators, place);
        assert NodeOk(buckets[g][0], g, iterators, place);
      }
    }
  }

  /** Follows the iterator of `k`. */
  method Position(x: Index, k: Key, f: nat, ghost place: map<Key, nat>, ghost nextId: nat) returns (i: nat)
    requires IndexOk(x, place, nextId) && k in x.iterators && place[k] == f
    ensures f in x.buckets && i < |x.buckets[f]| && x.buckets[f][i].key == k
  {
    assert Placed(x.buckets, place, k);
    assert BucketOk(x.buckets[f], f, x.iterators, place);
    ghost var j :| 0 <= j < |x.buckets[f]| && x.buckets[f][j].key == k;
    assert NodeOk(x.buckets[f][j], f, x.iterators, place);
    i :| 0 <= i < |x.buckets[f]| && x.buckets[f][i].id == x.iterators[k];
    assert NodeOk(x.buckets[f][i], f, x.iterators, place);
  }

  /** The lists without `gone`, each in its order. */
  ghost predicate Shrunk(x: Index, x': Index, gone: set<Key>) {
    && (forall g :: ListAt(x'.buckets, g) == Drop(ListAt(x.buckets, g), gone))
    && x'.freqSet <= x.freqSet && (gone != {} ==> MinAfter(x.minFreq, x'.freqSet, x'.minFreq))
    && (gone == {} ==> x'.minFreq == x.minFreq)
  }

  /** `k` is at the end of the list of keys with `f` hits. */
  ghost predicate Grown(x: Index, x': Index, k: Key, f: nat) {
    && (forall g :: ListAt(x'.buckets, g) == ListAt(x.buckets, g) + if g == f then [k] else [])
    && x'.minFreq == if x.minFreq == 0 then f else x.minFreq
  }

  lemma ShrunkTwice(x: Index, y: Index, z: Index, a: set<Key>, b: set<Key>)
    requires Shrunk(x, y, a) && Shrunk(y, z, b) && b != {}
    ensures Shrunk(x, z, a + b)
  {
    forall g
      ensures ListAt(z.buckets, g) == Drop(ListAt(x.buckets, g), a + b)
    {
      DropTwice(ListAt(x.buckets, g), a, b);
    }
  }

  lemma ShrunkByNone(x: Index)
    ensures Shrunk(x, x, {})
  {
    forall g
      ensures Drop(ListAt(x.buckets, g), {}) == ListAt(x.buckets, g)
    {
      DropNone(ListAt(x.buckets, g), {});
    }
  }

  /** `gone` are removed and `k` comes to the end of its list: the whole new state, up to the iterators. */
  ghost predicate Replaced(x: Index, x': Index, gone: set<Key>, k: Key, f: nat) {
    && (forall g :: ListAt(x'.buckets, g) == Drop(ListAt(x.buckets, g), gone) + if g == f then [k] else [])
    && exists left :: LeftBy(x.buckets, gone, left) && MinReplaced(x.minFreq, left, f, x'.minFreq)
  }

  /** The hit numbers that keep a key. */
  ghost predicate LeftBy(buckets: Buckets, gone: set<Key>, left: set<nat>) {
    forall g :: g in left <==> Drop(ListAt(buckets, g), gone) != []
  }

  ghost predicate MinReplaced(minFreq: nat, left: set<nat>, f: nat, minFreq': nat) {
    if left == {} then minFreq' == f else MinAfter(minFreq, left, minFreq')
  }

  lemma ShrunkThenGrown(x: Index, y: Index, z: Index, place: map<Key, nat>, nextId: nat, gone: set<Key>, k: Key, f: nat)
    requires IndexOk(y, place, nextId) && Shrunk(x, y, gone) && Grown(y, z, k, f)
    ensures Replaced(x, z, gone, k, f)
  {
    assert forall g | g in y.buckets :: BucketOk(y.buckets[g], g, y.iterators, place);
    assert forall g :: g in y.freqSet <==> ListAt(y.buckets, g) != [];
    assert LeftBy(x.buckets, gone, y.freqSet);
    assert MinReplaced(x.minFreq, y.freqSet, f, z.minFreq);
  }

  method Remove(x: Index, k: Key, f: nat, ghost place: map<Key, nat>, ghost nextId: nat) returns (defined: bool, x': Index)
    requires IndexOk(x, place, nextId) && k in x.iterators && place[k] == f
    ensures defined <==> x.iterators.Keys != {k}
    ensures defined ==> IndexOk(x', place - {k}, nextId) && x'.iterators == x.iterators - {k}
    ensures defined ==> Shrunk(x, x', {k})
  {
    var i := Position(x, k, f, place, nextId);
    LastBucket(x.buckets, x.iterators, place, f, i);
    EraseKeepsIndexed(x.buckets, x.iterators, place, f, i);
    forall g
      ensures ListAt(Erased(x.buckets, f, i), g) == Drop(ListAt(x.buckets, g), {k})
    {
      EraseDrops(x.buckets, x.iterators, place, f, i, g);
    }
    var buckets, freqSet, minFreq;
    defined, buckets, freqSet, minFreq := EraseFreqMap(x.buckets, x.freqSet, x.minFreq, f, i);
    x' := Index(buckets, x.iterators - {k}, freqSet, minFreq);
  }

  method Add(x: Index, k: Key, f: nat, nextId: nat, ghost place: map<Key, nat>) returns (x': Index)
    requires IndexOk(x, place, nextId) && k !in x.iterators && f > 0
    ensures IndexOk(x', place[k := f], nextId + 1) && x'.iterators == x.iterators[k := nextId]
    ensures Grown(x, x', k, f)
  {
    InsertKeepsIndexed(x.buckets, x.iterators, place, f, Node(nextId, k));
    var buckets, freqSet, minFreq := Insert(x.buckets, x.freqSet, x.minFreq, f, Node(nextId, k));
    x' := Index(buckets, x.iterators[k := nextId], freqSet, minFreq);
  }

  /** The removal loop. Undefined exactly when every cached key goes. */
  method RemoveAll(x0: Index, removable: seq<Key>, known: map<Key, Meta>, ghost place0: map<Key, nat>, ghost nextId: nat)
    returns (defined: bool, x: Index)
    requires IndexOk(x0, place0, nextId) && PlacedByHits(place0, known)
    requires Distinct(removable) && Elements(removable) <= x0.iterators.Keys
    ensures defined <==> removable == [] || Elements(removable) != x0.iterators.Keys
    ensures defined ==> IndexOk(x, place0 - Elements(removable), nextId) && x.iterators == x0.iterators - Elements(removable)
    ensures defined ==> Shrunk(x0, x, Elements(removable))
  {
    x := x0;
    assert Elements(removable[..0]) == {};
    ShrunkByNone(x0);
    for i := 0 to |removable|
      invariant Removing(x, x0, place0, removable, i, nextId)
    {
      var k := removable[i];
      RemoveStep(removable, x0.iterators, place0, i);
      ghost var before := x;
      defined, x := Remove(x, k, known[k].hitNum, place0 - Elements(removable[..i]), nextId);
      if !defined {
        return;
      }
      RemovedOneMore(before, x, x0, place0, removable, i, nextId);
    }
    assert removable[..|removable|] == removable;
    defined := true;
  }

  ghost predicate Removing(x: Index, x0: Index, place0: map<Key, nat>, removable: seq<Key>, i: nat, nextId: nat)
    requires i <= |removable|
  {
    && IndexOk(x, place0 - Elements(removable[..i]), nextId) && x.iterators == x0.iterators - Elements(removable[..i])
    && (i > 0 ==> x.iterators.Keys != {}) && Shrunk(x0, x, Elements(removable[..i]))
  }

  lemma RemovedOneMore(x: Index, x': Index, x0: Index, place0: map<Key, nat>, removable: seq<Key>, i: nat, nextId: nat)
    requires Distinct(removable) && i < |removable| && Elements(removable) <= x0.iterators.Keys && place0.Keys == x0.iterators.Keys
    requires Removing(x, x0, place0, removable, i, nextId) && Shrunk(x, x', {removable[i]})
    requires IndexOk(x', place0 - Elements(removable[..i]) - {removable[i]}, nextId)
    requires x'.iterators == x.iterators - {removable[i]} && x.iterators.Keys != {removable[i]}
    ensures Removing(x', x0, place0, removable, i + 1, nextId)
  {
    RemoveStep(removable, x0.iterators, place0, i);
    ShrunkTwice(x0, x, x', Elements(removable[..i]), {removable[i]});
    assert removable[i] in x.iterators;
  }

  lemma RemoveStep(removable: seq<Key>, iterators: map<Key, nat>, place: map<Key, nat>, i: nat)
    requires Distinct(removable) && i < |removable| && Elements(removable) <= iterators.Keys && place.Keys == iterators.Keys
    ensures removable[i] in iterators - Elements(removable[..i])
    ensures place - Elements(removable[..i]) - {removable[i]} == place - Elements(removable[..i + 1])
    ensures iterators - Elements(removable[..i]) - {removable[i]} == iterators - Elements(removable[..i + 1])
    ensures (iterators - Elements(removable[..i])).Keys == {removable[i]} ==> Elements(removable) == iterators.Keys
    ensures Elements(removable[..i + 1]) == Elements(removable[..i]) + {removable[i]}
  {
    var k, done := removable[i], Elements(removable[..i]);
    assert k in Elements(removable);
    assert removable[..i + 1] == removable[..i] + [k];
    assert Elements(removable[..i + 1]) == done + {k};
    assert k !in done;
    if (iterators - done).Keys == {k} {
      assert forall l | l in iterators :: l == k || l in done;
      assert forall l | l in done :: l in removable;
    }
  }

  // ---------------------------------------------------------------------------
  // The policy

  /** Everything that holds between operations. */
  ghost predicate Ok(x: Index, place: map<Key, nat>, nextId: nat, known: map<Key, Meta>, free: nat, maxSize: nat) {
    && IndexOk(x, place, nextId) && PlacedByHits(place, known) && (forall k | k in known :: known[k].hitNum > 0)
    && Accounted(x.iterators.Keys, known, free, maxSize)
  }

  ghost predicate Accounted(cached: set<Key>, known: map<Key, Meta>, free: nat, maxSize: nat) {
    free + Sum(cached, SizeIn(known)) == maxSize
  }

  /** Hits and new keys do not touch the accounting. */
  lemma AccountedStill(cached: set<Key>, known: map<Key, Meta>, known': map<Key, Meta>, free: nat, maxSize: nat)
    requires Accounted(cached, known, free, maxSize)
    requires forall k | k in cached :: k in known && k in known' && known'[k].size == known[k].size
    ensures Accounted(cached, known', free, maxSize)
  {
    SumAgrees(cached, SizeIn(known), SizeIn(known'));
  }

  /** The victims go, the new key comes. */
  lemma AccountedAfterStore(cached: set<Key>, known: map<Key, Meta>, free: nat, maxSize: nat, gone: set<Key>, low: nat, k: Key)
    requires Accounted(cached, known, free, maxSize) && gone <= cached && low == Sum(gone, SizeIn(known))
    requires k in known && k !in cached && known[k].size <= free + low
    ensures Accounted(cached - gone + {k}, known, free + low - known[k].size, maxSize)
  {
    SumSplit(cached, gone, SizeIn(known));
    SumAdd(cached - gone, k, SizeIn(known));
  }

  /** The hits of `k` go up by one; an unknown key becomes known. */
  function Hit(known: map<Key, Meta>, k: Key, meta: Meta): map<Key, Meta> {
    known[k := if k in known then known[k].(hitNum := known[k].hitNum + 1) else meta]
  }

  /** A key without a size gets one. */
  function Sized(known: map<Key, Meta>, k: Key, size: nat): map<Key, Meta>
    requires k in known
  {
    if known[k].size == 0 then known[k := known[k].(size := size)] else known
  }

  lemma SizedExactly(known: map<Key, Meta>, k: Key, size: nat)
    requires k in known
    ensures Sized(known, k, size) == known[k := Meta(if known[k].size == 0 then size else known[k].size, known[k].hitNum)]
  {
  }

  /** Moves a cached key from its bucket to the next. Undefined exactly when it is the only one. */
  method MoveUp(x: Index, k: Key, freq: nat, nextId: nat, ghost place: map<Key, nat>) returns (defined: bool, x': Index)
    requires IndexOk(x, place, nextId) && k in x.iterators && place[k] + 1 == freq
    ensures defined <==> x.iterators.Keys != {k}
    ensures defined ==> IndexOk(x', place[k := freq], nextId + 1) && x'.iterators.Keys == x.iterators.Keys
    ensures defined ==> Replaced(x, x', {k}, k, freq)
  {
    var y;
    defined, y := Remove(x, k, freq - 1, place, nextId);
    x' := y;
    if defined {
      ReplacePlace(place, k, freq);
      ReplacePlace(x.iterators, k, nextId);
      x' := Add(y, k, freq, nextId, place - {k});
      ShrunkThenGrown(x, y, x', place - {k}, nextId, {k}, k, freq);
    }
  }

  lemma ReplacePlace(place: map<Key, nat>, k: Key, f: nat)
    requires k in place
    ensures (place - {k})[k := f] == place[k := f] && place[k := f].Keys == place.Keys
  {
  }

  lemma LoadKeepsOk(x: Index, x': Index, place: map<Key, nat>, nextId: nat, nextId': nat, known: map<Key, Meta>,
                    k: Key, meta: Meta, free: nat, maxSize: nat)
    requires Ok(x, place, nextId, known, free, maxSize) && meta.hitNum > 0
    requires IndexOk(x', Moved(place, k), nextId') && x'.iterators.Keys == x.iterators.Keys
    ensures Ok(x', Moved(place, k), nextId', Hit(known, k, meta), free, maxSize)
  {
    HitPlaced(place, known, k, meta);
    AccountedStill(x.iterators.Keys, known, Hit(known, k, meta), free, maxSize);
  }

  /** A cached key moves up one bucket. */
  ghost function Moved(place: map<Key, nat>, k: Key): map<Key, nat> {
    if k in place then place[k := place[k] + 1] else place
  }

  lemma HitPlaced(place: map<Key, nat>, known: map<Key, Meta>, k: Key, meta: Meta)
    requires PlacedByHits(place, known)
    ensures PlacedByHits(Moved(place, k), Hit(known, k, meta))
  {
  }

  method Load(x: Index, nextId: nat, known: map<Key, Meta>, k: Key, meta: Meta,
              ghost place: map<Key, nat>, ghost free: nat, ghost maxSize: nat)
    returns (defined: bool, x': Index, nextId': nat)
    requires Ok(x, place, nextId, known, free, maxSize) && meta.hitNum > 0
    ensures defined <==> x.iterators.Keys != {k}
    ensures defined ==> Ok(x', Moved(place, k), nextId', Hit(known, k, meta), free, maxSize) && x'.iterators.Keys == x.iterators.Keys
    ensures defined && k in x.iterators ==> k in known && Replaced(x, x', {k}, k, known[k].hitNum + 1)
    ensures defined && k !in x.iterators ==> x' == x
  {
    defined, x', nextId' := true, x, nextId;
    if k in x.iterators {
      defined, x' := MoveUp(x, k, Hit(known, k, meta)[k].hitNum, nextId, place);
      nextId' := nextId + 1;
    }
    if defined {
      LoadKeepsOk(x, x', place, nextId, nextId', known, k, meta, free, maxSize);
    }
  }

  datatype StoreResult = Threw | Rejected | Stored(removed: seq<Key>) | Undefined

  lemma SizedKeepsOk(x: Index, place: map<Key, nat>, nextId: nat, known: map<Key, Meta>, free: nat, maxSize: nat, k: Key, size: nat)
    requires Ok(x, place, nextId, known, free, maxSize) && k in known && k !in x.iterators
    ensures Ok(x, place, nextId, Sized(known, k, size), free, maxSize)
  {
    AccountedStill(x.iterators.Keys, known, Sized(known, k, size), free, maxSize);
  }

  /** The cached keys after a store. */
  ghost function PlacedAfter(place: map<Key, nat>, removed: seq<Key>, k: Key, hits: nat): map<Key, nat> {
    (place - Elements(removed))[k := hits]
  }

  lemma StoreKeepsOk(x: Index, x': Index, place: map<Key, nat>, nextId: nat, known: map<Key, Meta>, k: Key,
                     free: nat, maxSize: nat, removed: seq<Key>, low: nat)
    requires Ok(x, place, nextId, known, free, maxSize) && k in known && k !in x.iterators
    requires Victims(removed, low, x.iterators.Keys, known, free, known[k].size, known[k].hitNum)
    requires IndexOk(x', PlacedAfter(place, removed, k, known[k].hitNum), nextId + 1)
    requires x'.iterators.Keys == x.iterators.Keys - Elements(removed) + {k}
    ensures Ok(x', PlacedAfter(place, removed, k, known[k].hitNum), nextId + 1, known, free + low - known[k].size, maxSize)
  {
    AccountedAfterStore(x.iterators.Keys, known, free, maxSize, Elements(removed), low, k);
  }

  /** The victims are cached, have strictly fewer hits, make room, and would not without the last. */
  ghost predicate CanGo(x: Index, known: map<Key, Meta>, free: nat, k: Key, victims: seq<Key>)
    requires k in known
  {
    Victims(victims, Sum(Elements(victims), SizeIn(known)), x.iterators.Keys, known, free, known[k].size, known[k].hitNum)
  }

  /** The order in which a store looks at the cached keys. */
  ghost function Order(x: Index): seq<Key>
    requires x.freqSet == x.buckets.Keys
  {
    SearchOrder(x.buckets, x.freqSet, x.minFreq)
  }

  /** A store that evicts every cached key: the segment fits, all cached keys have strictly fewer hits,
      and even without the one that is looked at last they do not make room. */
  ghost predicate EvictsAll(x: Index, known: map<Key, Meta>, free: nat, k: Key, maxSize: nat)
    requires k in known && x.freqSet == x.buckets.Keys
  {
    var order := Order(x);
    && known[k].size <= maxSize && order != [] && AllLess(x.iterators.Keys, known, known[k].hitNum)
    && free + Sum(x.iterators.Keys, SizeIn(known)) < known[k].size + SizeIn(known)(order[|order| - 1])
  }

  /** What a store of a known key does. The keys removed are the first ones in the order of the
      search, as many as it takes. */
  ghost predicate Outcome(x: Index, x': Index, known: map<Key, Meta>, free: nat, free': nat, k: Key, maxSize: nat, r: StoreResult)
    requires k in known && x.freqSet == x.buckets.Keys
  {
    && (r.Undefined? <==> EvictsAll(x, known, free, k, maxSize))
    && match r
       case Threw => false
       case Undefined => true
       case Rejected =>
         && x' == x && free' == free
         && (known[k].size > maxSize || exists n :: Stops(Order(x), n, known, free, known[k].size, known[k].hitNum))
       case Stored(removed) =>
         && CanGo(x, known, free, k, removed) && removed <= Order(x)
         && x'.iterators.Keys == x.iterators.Keys - Elements(removed) + {k}
         && Replaced(x, x', Elements(removed), k, known[k].hitNum)
         && free' + known[k].size == free + Sum(Elements(removed), SizeIn(known))
  }

  lemma {:induction false} OrderListsKeys(buckets: Buckets, iterators: map<Key, nat>, place: map<Key, nat>, rest: set<nat>, f: nat)
    requires Indexed(buckets, iterators, place) && rest <= buckets.Keys && (rest == {} || f in rest)
    ensures var order := SearchOrder(buckets, rest, f); Distinct(order) && Elements(order) == KeysAt(place, rest)
    decreases rest
  {
    if rest != {} {
      var rest' := rest - {f};
      var tail := if rest' == {} then [] else SearchOrder(buckets, rest', LeastOf(rest'));
      OrderListsKeys(buckets, iterators, place, rest', if rest' == {} then 0 else LeastOf(rest'));
      BucketLists(buckets, iterators, place, f);
      DistinctAppend(KeySeq(buckets[f]), tail);
      assert KeysAt(place, rest) == KeysAt(place, {f}) + KeysAt(place, rest');
      assert Elements(tail) == KeysAt(place, rest');
    }
  }

  lemma BucketLists(buckets: Buckets, iterators: map<Key, nat>, place: map<Key, nat>, f: nat)
    requires Indexed(buckets, iterators, place) && f in buckets
    ensures Distinct(KeySeq(buckets[f])) && Elements(KeySeq(buckets[f])) == KeysAt(place, {f})
  {
    var b := buckets[f];
    assert BucketOk(b, f, iterators, place);
    forall k | k in KeySeq(b)
      ensures k in KeysAt(place, {f})
    {
      var i :| 0 <= i < |b| && b[i].key == k;
      assert NodeOk(b[i], f, iterators, place);
    }
    forall k | k in KeysAt(place, {f})
      ensures k in KeySeq(b)
    {
      assert Placed(buckets, place, k);
      var i :| 0 <= i < |b| && b[i].key == k;
      assert KeySeq(b)[i] == k;
    }
  }

  lemma OrderListsAll(x: Index, place: map<Key, nat>, nextId: nat)
    requires IndexOk(x, place, nextId)
    ensures Distinct(Order(x)) && Elements(Order(x)) == x.iterators.Keys
  {
    OrderListsKeys(x.buckets, x.iterators, place, x.freqSet, x.minFreq);
    KeysAtAll(x.buckets, x.iterators, place, x.freqSet);
  }

  /** What the store would not need the last of the order for, if it removed less. */
  lemma ProperPrefixLeavesLast(order: seq<Key>, n: nat, size: Key -> nat)
    requires Distinct(order) && n < |order|
    ensures Sum(Elements(order[..n]), size) + size(order[|order| - 1]) <= Sum(Elements(order), size)
  {
    var last := order[|order| - 1];
    assert last in order && last !in order[..n];
    assert Elements(order[..n]) <= Elements(order) - {last} by {
      assert forall k | k in order[..n] :: k in order;
    }
    SumRemove(Elements(order), last, size);
    SumSplit(Elements(order) - {last}, Elements(order[..n]), size);
  }

  /** A prefix of the order that is all of it as a set is all of it. */
  lemma WholePrefix(order: seq<Key>, n: nat)
    requires Distinct(order) && n <= |order|
    ensures Elements(order[..n]) == Elements(order) <==> n == |order|
  {
    if n < |order| {
      assert order[n] in Elements(order) && order[n] !in order[..n];
    } else {
      assert order[..n] == order;
    }
  }

  lemma AllGoExactly(x: Index, known: map<Key, Meta>, free: nat, k: Key, maxSize: nat, victims: seq<Key>)
    requires k in known && x.freqSet == x.buckets.Keys && known[k].size <= maxSize
    requires Distinct(Order(x)) && Elements(Order(x)) == x.iterators.Keys
    requires CanGo(x, known, free, k, victims) && victims <= Order(x)
    ensures EvictsAll(x, known, free, k, maxSize) <==> victims != [] && Elements(victims) == x.iterators.Keys
  {
    var order, n := Order(x), |victims|;
    assert order[..n] == victims;
    WholePrefix(order, n);
    if n < |order| {
      ProperPrefixLeavesLast(order, n, SizeIn(known));
    } else {
      assert victims == order;
    }
  }

  lemma StoppedDoesNotEvictAll(x: Index, known: map<Key, Meta>, free: nat, k: Key, maxSize: nat, n: nat)
    requires k in known && x.freqSet == x.buckets.Keys && Elements(Order(x)) == x.iterators.Keys
    requires Stops(Order(x), n, known, free, known[k].size, known[k].hitNum)
    ensures !EvictsAll(x, known, free, k, maxSize)
  {
    assert Order(x)[n] in Elements(Order(x));
  }

  /** The key looked at last, said outright: it is at the end of the bucket of the greatest hit number
      other than `minFreq_`, or of `minFreq_` if there is no other. */
  lemma LastOfOrder(x: Index, place: map<Key, nat>, nextId: nat, last: nat)
    requires IndexOk(x, place, nextId) && x.freqSet != {} && ComesLast(last, x.freqSet, x.minFreq)
    ensures var order, b := Order(x), x.buckets[last];
            order != [] && b != [] && order[|order| - 1] == b[|b| - 1].key
  {
    assert forall g | g in x.buckets :: BucketOk(x.buckets[g], g, x.iterators, place);
    OrderEndsAt(x.buckets, x.freqSet, x.minFreq, last);
  }

  /** A cache with room for one byte that holds `a`, and a store of `k` that evicts it. */
  lemma EverythingCanGo(a: Key, k: Key)
    requires a != k
    ensures var x := Index(map[1 := [Node(0, a)]], map[a := 0], {1}, 1);
            var known := map[a := Meta(1, 1), k := Meta(1, 2)];
            Ok(x, map[a := 1], 1, known, 0, 1) && EvictsAll(x, known, 0, k, 1)
  {
    var x := Index(map[1 := [Node(0, a)]], map[a := 0], {1}, 1);
    var known := map[a := Meta(1, 1), k := Meta(1, 2)];
    assert x.iterators.Keys == {a} && x.buckets.Keys == {1};
    SumAdd({}, a, SizeIn(known));
    assert {} + {a} == {a};
    assert [Node(0, a)][0].key == a;
    OrderEndsAt(x.buckets, {1}, 1, 1);
  }

  method ReplaceKeys(x: Index, removable: seq<Key>, known: map<Key, Meta>, k: Key, ghost place: map<Key, nat>, nextId: nat)
    returns (defined: bool, x': Index)
    requires IndexOk(x, place, nextId) && PlacedByHits(place, known) && k in known && k !in x.iterators && known[k].hitNum > 0
    requires Distinct(removable) && Elements(removable) <= x.iterators.Keys
    ensures defined <==> removable == [] || Elements(removable) != x.iterators.Keys
    ensures defined ==> IndexOk(x', PlacedAfter(place, removable, k, known[k].hitNum), nextId + 1)
    ensures defined ==> x'.iterators.Keys == x.iterators.Keys - Elements(removable) + {k}
    ensures defined ==> Replaced(x, x', Elements(removable), k, known[k].hitNum)
  {
    var y;
    defined, y := RemoveAll(x, removable, known, place, nextId);
    x' := y;
    if defined {
      x' := Add(y, k, known[k].hitNum, nextId, place - Elements(removable));
      ShrunkThenGrown(x, y, x', place - Elements(removable), nextId, Elements(removable), k, known[k].hitNum);
    }
  }

  method Replace(x: Index, nextId: nat, known: map<Key, Meta>, k: Key, free: nat, ghost maxSize: nat, ghost place: map<Key, nat>,
                 removable: seq<Key>, low: nat)
    returns (r: StoreResult, x': Index, free': nat)
    requires Ok(x, place, nextId, known, free, maxSize) && k in known && k !in x.iterators
    requires Victims(removable, low, x.iterators.Keys, known, free, known[k].size, known[k].hitNum)
    ensures r.Undefined? <==> removable != [] && Elements(removable) == x.iterators.Keys
    ensures !r.Undefined? ==> r == Stored(removable) && x'.iterators.Keys == x.iterators.Keys - Elements(removable) + {k}
    ensures !r.Undefined? ==> Ok(x', PlacedAfter(place, removable, k, known[k].hitNum), nextId + 1, known, free', maxSize)
    ensures !r.Undefined? ==> Replaced(x, x', Elements(removable), k, known[k].hitNum) && free' + known[k].size == free + low
  {
    var defined;
    free' := free;
    defined, x' := ReplaceKeys(x, removable, known, k, place, nextId);
    if !defined {
      return Undefined, x', free';
    }
    StoreKeepsOk(x, x', place, nextId, known, k, free, maxSize, removable, low);
    free' := free + low - known[k].size;
    r := Stored(removable);
  }

  method Store(x: Index, nextId: nat, known: map<Key, Meta>, k: Key, free: nat, maxSize: nat, ghost place: map<Key, nat>)
    returns (r: StoreResult, x': Index, free': nat, nextId': nat, ghost place': map<Key, nat>)
    requires Ok(x, place, nextId, known, free, maxSize) && k in known && k !in x.iterators
    ensures Outcome(x, x', known, free, free', k, maxSize, r)
    ensures !r.Undefined? ==> Ok(x', place', nextId', known, free', maxSize)
  {
    var size, hits := known[k].size, known[k].hitNum;
    x', free', nextId', place' := x, free, nextId, place;
    if maxSize < size {
      return Rejected, x', free', nextId', place';
    }
    OrderListsAll(x, place, nextId);
    var ok, removable, low := FindSpace(x.buckets, x.freqSet, x.minFreq, known, free, size, hits, x.iterators, place);
    if !ok {
      StoppedDoesNotEvictAll(x, known, free, k, maxSize, |removable|);
      return Rejected, x', free', nextId', place';
    }
    AllGoExactly(x, known, free, k, maxSize, removable);
    r, x', free' := Replace(x, nextId, known, k, free, maxSize, place, removable, low);
    nextId', place' := nextId + 1, PlacedAfter(place, removable, k, hits);
  }

  class LfuCachingPolicy {
    const maxSize: nat
    var freqMap: Buckets
    var keyMap: map<Key, nat>
    var freqSet: set<nat>
    var minFreq: nat
    var keySet: map<Key, Meta>
    var freeSize: nat
    var nextId: nat
    ghost var place: map<Key, nat>

    ghost function Now(): Index
      reads this
    {
      Index(freqMap, keyMap, freqSet, minFreq)
    }

    ghost predicate Valid()
      reads this
    {
      Ok(Now(), place, nextId, keySet, freeSize, maxSize)
    }

    constructor (maxSize: nat)
      ensures Valid() && keyMap == map[] && keySet == map[] && freeSize == maxSize && this.maxSize == maxSize
    {
      this.maxSize := maxSize;
      freqMap, keyMap, freqSet, minFreq, keySet, freeSize, nextId, place := map[], map[], {}, 0, map[], maxSize, 0, map[];
    }

    /** `meta` is what a key object that was never used before comes with. */
    method OnLoad(k: Key, meta: Meta) returns (defined: bool)
      requires Valid() && meta.hitNum > 0
      modifies this
      ensures defined <==> old(keyMap).Keys != {k}
      ensures defined ==> Valid()
      ensures defined && k in old(keySet) ==>
                keySet == old(keySet)[k := Meta(old(keySet)[k].size, old(keySet)[k].hitNum + 1)]
      ensures defined && k !in old(keySet) ==> keySet == old(keySet)[k := meta]
      ensures defined && k in old(keyMap) ==> k in keySet && Replaced(old(Now()), Now(), {k}, k, keySet[k].hitNum)
      ensures defined && k !in old(keyMap) ==> Now() == old(Now())
      ensures defined ==> keyMap.Keys == old(keyMap).Keys && freeSize == old(freeSize)
    {
      var x, id;
      defined, x, id := Load(Index(freqMap, keyMap, freqSet, minFreq), nextId, keySet, k, meta, place, freeSize, maxSize);
      keySet := Hit(keySet, k, meta);
      Update(x, freeSize, id, Moved(place, k));
    }

    /** Undefined exactly when the store would evict every cached key. */
    method OnStore(k: Key, size: nat) returns (r: StoreResult)
      requires Valid() && k !in keyMap
      modifies this
      ensures r.Threw? <==> k !in old(keySet)
      ensures r.Threw? ==> unchanged(this)
      ensures !r.Undefined? ==> Valid()
      ensures !r.Threw? ==>
                keySet == old(keySet)[k := Meta(if old(keySet)[k].size == 0 then size else old(keySet)[k].size, old(keySet)[k].hitNum)]
      ensures !r.Threw? ==> Outcome(old(Now()), Now(), keySet, old(freeSize), freeSize, k, maxSize, r)
    {
      if k !in keySet {
        return Threw;
      }
      SizedKeepsOk(Now(), place, nextId, keySet, freeSize, maxSize, k, size);
      SizedExactly(keySet, k, size);
      keySet := Sized(keySet, k, size);
      r := StoreKnown(k);
    }

    method StoreKnown(k: Key) returns (r: StoreResult)
      requires Valid() && k !in keyMap && k in keySet
      modifies this`freqMap, this`keyMap, this`freqSet, this`minFreq, this`freeSize, this`nextId, this`place
      ensures !r.Undefined? ==> Valid()
      ensures Outcome(old(Now()), Now(), keySet, old(freeSize), freeSize, k, maxSize, r)
    {
      var x, free, id;
      ghost var p;
      r, x, free, id, p := Store(Index(freqMap, keyMap, freqSet, minFreq), nextId, keySet, k, freeSize, maxSize, place);
      Update(x, free, id, p);
    }

    method Update(x: Index, free: nat, id: nat, ghost p: map<Key, nat>)
      modifies this`freqMap, this`keyMap, this`freqSet, this`minFreq, this`freeSize, this`nextId, this`place
      ensures Now() == x && freeSize == free && nextId == id && place == p
    {
      freqMap, keyMap, freqSet, minFreq := x.buckets, x.iterators, x.freqSet, x.minFreq;
      freeSize, nextId, place := free, id, p;
    }
  }
}
