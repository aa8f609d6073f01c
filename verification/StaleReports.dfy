/** What LFU-S and W-LFU report as cached. They list the heap, stale entries included; the consistency
    check of the segment cache throws when that is not what is cached. */
module StaleReports {
  import opened Segments
  import opened Sums
  import opened LazyHeapPolicy

  /** `getKeysetInCachePolicy` */
  ghost function Reported(s: State): set<Key>
    requires HeapAgrees(s)
  {
    set r | r in s.heap :: s.objects[r].key
  }

  /** A stale entry of a key that was evicted. */
  ghost predicate Leftover(s: State, r: Ref)
    requires HeapAgrees(s)
  {
    r in s.heap && !s.objects[r].valid && s.objects[r].key !in s.cached
  }

  /** The report is right exactly when no leftover is on the heap. */
  lemma ReportIsRightExactly(s: State)
    requires OneValid(s) && HeapAgrees(s)
    ensures Reported(s) == s.cached.Keys <==> !exists r :: Leftover(s, r)
  {
    forall k | k in s.cached
      ensures k in Reported(s)
    {
      assert s.cached[k] in s.heap && s.objects[s.cached[k]].key == k;
    }
    if Reported(s) != s.cached.Keys {
      var k :| k in Reported(s) && k !in s.cached;
      var r :| r in s.heap && s.objects[r].key == k;
      assert Leftover(s, r);
    } else {
      forall r | r in s.heap
        ensures !Leftover(s, r)
      {
        assert s.objects[r].key in Reported(s);
      }
    }
  }

  /** In particular it is right on a heap without stale entries. */
  lemma NoStaleEntryNoWrongReport(s: State)
    requires OneValid(s) && HeapAgrees(s) && forall r | r in s.heap :: s.objects[r].valid
    ensures Reported(s) == s.cached.Keys
  {
    ReportIsRightExactly(s);
  }

  // ---------------------------------------------------------------------------
  // A run of LFU-S that ends in a wrong report. The cache has room for one of the two segments.
  // The last load of `a` leaves a stale entry with the rate of the valid one, and the heap yields
  // the valid one first; the store then has room and leaves the stale one.

  function Object(k: Key, hits: nat, valid: bool): SegmentKey {
    SegmentKey(k, 1, hits, if hits == 1 then Finite(0.0) else RateOf(hits, 1), 0.0, valid)
  }

  ghost function Sizes(a: Key, c: Key): map<Key, nat> {
    map[a := 1, c := 1]
  }

  /** After the first use of `a`. */
  ghost function Met(a: Key): State {
    State([Object(a, 1, true)], multiset{}, map[], map[a := 0], 1)
  }

  /** After `n` uses of the cached `a`. */
  ghost function Used(a: Key, n: nat): State
    requires n <= 3
  {
    var all := [Object(a, 2, false), Object(a, 3, false), Object(a, 4, false)];
    State(all[..n] + [Object(a, n + 1, true)], Refs(n + 1), map[a := n], map[a := n], 0)
  }

  ghost function Refs(n: nat): multiset<Ref> {
    if n == 0 then multiset{} else Refs(n - 1) + multiset{n - 1}
  }

  /** After three uses of `a` and `n` of `c`. */
  ghost function Both(a: Key, c: Key, n: nat): State
    requires n > 0
  {
    Used(a, 3).(objects := Used(a, 3).objects + [Object(c, n, true)], known := map[a := 3, c := 4])
  }

  /** After `c` was stored: the entry 2 of `a` is left on the heap. */
  ghost function End(a: Key, c: Key): State {
    State(Both(a, c, 5).objects, multiset{2, 4}, map[c := 4], map[a := 3, c := 4], 0)
  }

  /** Some run of LFU-S with room for one byte ends in `s`. */
  ghost predicate Reachable(s: State, sizes: map<Key, nat>) {
    exists states, steps :: IsRun(states, steps, 1, false, sizes) && states[|states| - 1] == s
  }

  lemma ReachableNext(s: State, step: Step, s': State, sizes: map<Key, nat>)
    requires Reachable(s, sizes) && Takes(s, step, s', 1, false, sizes)
    ensures Reachable(s', sizes)
  {
    var states, steps :| IsRun(states, steps, 1, false, sizes) && states[|states| - 1] == s;
    RunGoesOn(states, steps, step, s', sizes);
    assert (states + [s'])[|states + [s']| - 1] == s';
  }

  lemma RunGoesOn(states: seq<State>, steps: seq<Step>, step: Step, s': State, sizes: map<Key, nat>)
    requires IsRun(states, steps, 1, false, sizes) && Takes(states[|states| - 1], step, s', 1, false, sizes)
    ensures IsRun(states + [s'], steps + [step], 1, false, sizes)
  {
    var states', steps' := states + [s'], steps + [step];
    forall i | 0 <= i < |steps'|
      ensures Takes(states'[i], steps'[i], states'[i + 1], 1, false, sizes)
    {
      assert i < |steps| ==> Takes(states[i], steps[i], states[i + 1], 1, false, sizes);
    }
  }

  lemma StartIsReachable(sizes: map<Key, nat>)
    ensures Reachable(State([], multiset{}, map[], map[], 1), sizes)
  {
    assert IsRun([State([], multiset{}, map[], map[], 1)], [], 1, false, sizes);
  }

  lemma FirstUseOfA(a: Key, c: Key)
    ensures Takes(State([], multiset{}, map[], map[], 1), Load(Object(a, 1, true)), Met(a), 1, false, Sizes(a, c))
  {
  }

  lemma StoreOfA(a: Key, c: Key)
    ensures Takes(Met(a), Accept(a, 1, multiset{}, map[], 1, []), Used(a, 0), 1, false, Sizes(a, c))
  {
    var s := Met(a);
    assert Sized(s, a, 1) == s;
    assert KeysOf(s.objects, []) == {} && s.cached - {} == map[];
    assert Refs(1) == multiset{} + multiset{0};
  }

  lemma UseOfA(a: Key, c: Key, n: nat)
    requires a != c && n < 3
    ensures Takes(Used(a, n), Load(Object(a, 1, true)), Used(a, n + 1), 1, false, Sizes(a, c))
  {
    UsedOneValid(a, n);
    UseGives(a, n);
  }

  lemma UsedOneValid(a: Key, n: nat)
    requires n < 3
    ensures OneValid(Used(a, n))
  {
  }

  lemma UseGives(a: Key, n: nat)
    requires n < 3 && OneValid(Used(a, n))
    ensures Use(Used(a, n), a, 1) == Used(a, n + 1)
  {
    var s, s' := Used(a, n), Used(a, n + 1);
    assert s.objects[n] == Object(a, n + 1, true);
    assert s'.objects == s.objects[n := Object(a, n + 2, false)] + [Object(a, n + 2, true)];
    assert s'.cached == s.cached[a := n + 1];
  }

  lemma FirstUseOfC(a: Key, c: Key)
    requires a != c
    ensures Takes(Used(a, 3), Load(Object(c, 1, true)), Both(a, c, 1), 1, false, Sizes(a, c))
  {
  }

  lemma UseOfC(a: Key, c: Key, n: nat)
    requires a != c && 0 < n
    ensures Takes(Both(a, c, n), Load(Object(c, 1, true)), Both(a, c, n + 1), 1, false, Sizes(a, c))
  {
    var s, s' := Both(a, c, n), Both(a, c, n + 1);
    assert s.objects[4] == Object(c, n, true);
    assert s'.objects == s.objects[4 := Object(c, n + 1, true)];
  }

  lemma OnlyAGoes(a: Key, c: Key)
    requires a != c
    ensures Looping(Both(a, c, 5), multiset{2}, map[], 1, [3], false, 4)
  {
    var s := Both(a, c, 5);
    VictimIsA(a, c);
    assert s.heap == multiset{0, 1, 2, 3};
    assert s.cached - {a} == map[];
    SumAdd({}, a, SizeIn(s));
    assert {} + {a} == {a};
  }

  lemma VictimIsA(a: Key, c: Key)
    requires a != c
    ensures Victims(Both(a, c, 5), [3], false, 4) && KeysOf(Both(a, c, 5).objects, [3]) == {a}
  {
    var s := Both(a, c, 5);
    assert s.objects[3] == Object(a, 4, true) && s.objects[4] == Object(c, 5, true);
    assert 3 in [3];
  }

  lemma CHasItsSize(a: Key, c: Key)
    requires a != c
    ensures OneValid(Both(a, c, 5)) && Sized(Both(a, c, 5), c, 1) == Both(a, c, 5)
    ensures Both(a, c, 5).objects[4].size == 1
  {
    assert Both(a, c, 5).objects[4] == Object(c, 5, true);
  }

  lemma StoreOfC(a: Key, c: Key)
    requires a != c
    ensures Takes(Both(a, c, 5), Accept(c, 1, multiset{2}, map[], 1, [3]), End(a, c), 1, false, Sizes(a, c))
  {
    CHasItsSize(a, c);
    OnlyAGoes(a, c);
    assert Filled(Both(a, c, 5), multiset{2}, map[], 1, c) == End(a, c);
  }

  lemma {:induction false} UsesOfA(a: Key, c: Key, n: nat)
    requires a != c && n <= 3 && Reachable(Used(a, 0), Sizes(a, c))
    ensures Reachable(Used(a, n), Sizes(a, c))
  {
    if n > 0 {
      UsesOfA(a, c, n - 1);
      UseOfA(a, c, n - 1);
      ReachableNext(Used(a, n - 1), Load(Object(a, 1, true)), Used(a, n), Sizes(a, c));
    }
  }

  lemma {:induction false} UsesOfC(a: Key, c: Key, n: nat)
    requires a != c && 0 < n && Reachable(Both(a, c, 1), Sizes(a, c))
    ensures Reachable(Both(a, c, n), Sizes(a, c))
  {
    if n > 1 {
      UsesOfC(a, c, n - 1);
      UseOfC(a, c, n - 1);
      ReachableNext(Both(a, c, n - 1), Load(Object(c, 1, true)), Both(a, c, n), Sizes(a, c));
    }
  }

  lemma EndIsReachable(a: Key, c: Key)
    requires a != c
    ensures Reachable(End(a, c), Sizes(a, c))
  {
    var sizes, useA, useC := Sizes(a, c), Load(Object(a, 1, true)), Load(Object(c, 1, true));
    StartIsReachable(sizes);
    FirstUseOfA(a, c);
    ReachableNext(State([], multiset{}, map[], map[], 1), useA, Met(a), sizes);
    StoreOfA(a, c);
    ReachableNext(Met(a), Accept(a, 1, multiset{}, map[], 1, []), Used(a, 0), sizes);
    UsesOfA(a, c, 3);
    FirstUseOfC(a, c);
    ReachableNext(Used(a, 3), useC, Both(a, c, 1), sizes);
    UsesOfC(a, c, 5);
    StoreOfC(a, c);
    ReachableNext(Both(a, c, 5), Accept(c, 1, multiset{2}, map[], 1, [3]), End(a, c), sizes);
  }

  /** After this run the policy reports `a` and `c` while only `c` is cached, and so the check that
      compares the two throws. */
  lemma EvictedKeyIsReported(a: Key, c: Key)
    requires a != c
    ensures Reachable(End(a, c), Sizes(a, c))
    ensures HeapAgrees(End(a, c)) && Reported(End(a, c)) == {a, c} && End(a, c).cached.Keys == {c}
  {
    EndIsReachable(a, c);
    var s := End(a, c);
    assert s.objects[2].key == a && s.objects[4].key == c;
    assert 2 in s.heap && 4 in s.heap;
  }
}
