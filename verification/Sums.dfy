/** Sums of sizes over finite sets. */
module Sums {

  ghost function Sum<K(!new)>(s: set<K>, size: K -> nat): nat
    decreases s
  {
    if s == {} then 0 else
      var x :| x in s;
      size(x) + Sum(s - {x}, size)
  }

  lemma {:induction false} SumRemove<K(!new)>(s: set<K>, x: K, size: K -> nat)
    requires x in s
    ensures Sum(s, size) == size(x) + Sum(s - {x}, size)
    decreases s
  {
    var y :| y in s && Sum(s, size) == size(y) + Sum(s - {y}, size);
    if y != x {
      SumRemove(s - {y}, x, size);
      SumRemove(s - {x}, y, size);
      assert s - {y} - {x} == s - {x} - {y};
    }
  }

  lemma SumAdd<K(!new)>(s: set<K>, x: K, size: K -> nat)
    requires x !in s
    ensures Sum(s + {x}, size) == Sum(s, size) + size(x)
  {
    SumRemove(s + {x}, x, size);
    assert s + {x} - {x} == s;
  }

  lemma {:induction false} SumSplit<K(!new)>(s: set<K>, t: set<K>, size: K -> nat)
    requires t <= s
    ensures Sum(s, size) == Sum(t, size) + Sum(s - t, size)
    decreases t
  {
    if t == {} {
      assert s - t == s;
    } else {
      var x :| x in t;
      SumRemove(s, x, size);
      SumRemove(t, x, size);
      SumSplit(s - {x}, t - {x}, size);
      assert s - {x} - (t - {x}) == s - t;
    }
  }

  lemma {:induction false} SumAgrees<K(!new)>(s: set<K>, f: K -> nat, g: K -> nat)
    requires forall x | x in s :: f(x) == g(x)
    ensures Sum(s, f) == Sum(s, g)
    decreases s
  {
    if s != {} {
      var x :| x in s;
      SumRemove(s, x, f);
      SumRemove(s, x, g);
      SumAgrees(s - {x}, f, g);
    }
  }

  /** Scaling: a bound on every element is a bound on the sum. */
  lemma {:induction false} SumScales<K(!new)>(s: set<K>, f: K -> nat, g: K -> nat, a: nat, b: nat)
    requires forall x | x in s :: a * f(x) <= b * g(x)
    ensures a * Sum(s, f) <= b * Sum(s, g)
    decreases s
  {
    if s != {} {
      var x :| x in s;
      SumRemove(s, x, f);
      SumRemove(s, x, g);
      SumScales(s - {x}, f, g, a, b);
      Distribute(a, f(x), Sum(s - {x}, f));
      Distribute(b, g(x), Sum(s - {x}, g));
    }
  }

  lemma Distribute(a: nat, x: nat, y: nat)
    ensures a * (x + y) == a * x + a * y
  {
  }

  /** The size of a key in a map of sizes. */
  ghost function Of<K(!new)>(sizes: map<K, nat>): K -> nat {
    k => if k in sizes then sizes[k] else 0
  }

  ghost function Total<K(!new)>(sizes: map<K, nat>): nat {
    Sum(sizes.Keys, Of(sizes))
  }

  lemma TotalInsert<K(!new)>(sizes: map<K, nat>, k: K, n: nat)
    requires k !in sizes
    ensures Total(sizes[k := n]) == Total(sizes) + n
  {
    var sizes' := sizes[k := n];
    assert sizes'.Keys == sizes.Keys + {k};
    SumAdd(sizes.Keys, k, Of(sizes'));
    SumAgrees(sizes.Keys, Of(sizes), Of(sizes'));
  }

  lemma TotalRemove<K(!new)>(sizes: map<K, nat>, k: K)
    requires k in sizes
    ensures Total(sizes - {k}) == Total(sizes) - sizes[k]
  {
    var sizes' := sizes - {k};
    assert sizes'.Keys == sizes.Keys - {k};
    SumRemove(sizes.Keys, k, Of(sizes));
    SumAgrees(sizes'.Keys, Of(sizes), Of(sizes'));
  }
}
