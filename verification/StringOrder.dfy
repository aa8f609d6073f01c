/** The iteration order of a `std::set<std::string>`: lexicographic. */
module StringOrder {
  import opened Collections

  predicate Leq(a: string, b: string)
    decreases |a|
  {
    a == [] || (b != [] && (a[0] < b[0] || (a[0] == b[0] && Leq(a[1..], b[1..]))))
  }

  lemma {:induction false} LeqTotal(a: string, b: string)
    ensures Leq(a, b) || Leq(b, a)
    decreases |a|
  {
    if a != [] && b != [] && a[0] == b[0] {
      LeqTotal(a[1..], b[1..]);
    }
  }

  lemma {:induction false} LeqAntisymmetric(a: string, b: string)
    requires Leq(a, b) && Leq(b, a)
    ensures a == b
    decreases |a|
  {
    if a != [] {
      LeqAntisymmetric(a[1..], b[1..]);
      assert a == [a[0]] + a[1..] && b == [b[0]] + b[1..];
    }
  }

  lemma {:induction false} LeqTransitive(a: string, b: string, c: string)
    requires Leq(a, b) && Leq(b, c)
    ensures Leq(a, c)
    decreases |a|
  {
    if a != [] && a[0] == c[0] {
      LeqTransitive(a[1..], b[1..], c[1..]);
    }
  }

  predicate IsLeast(x: string, s: set<string>) {
    x in s && forall y | y in s :: Leq(x, y)
  }

  lemma {:induction false} LeastExists(s: set<string>) returns (x: string)
    requires s != {}
    ensures IsLeast(x, s)
    decreases s
  {
    var first :| first in s;
    x := first;
    if s != {first} {
      var y := LeastExists(s - {first});
      LeqTotal(first, y);
      x := if Leq(first, y) then first else y;
      forall z | z in s
        ensures Leq(x, z)
      {
        LeqTotal(z, z);
        if z != first {
          assert Leq(y, z);
          if Leq(first, y) {
            LeqTransitive(first, y, z);
          }
        }
      }
    } else {
      LeqTotal(x, x);
    }
  }

  lemma LeastIsUnique(x: string, y: string, s: set<string>)
    requires IsLeast(x, s) && IsLeast(y, s)
    ensures x == y
  {
    LeqAntisymmetric(x, y);
  }

  function Least(s: set<string>): (x: string)
    requires s != {}
    ensures IsLeast(x, s)
  {
    ghost var _ := LeastWitness(s);
    assert forall a, b | IsLeast(a, s) && IsLeast(b, s) :: a == b by {
      forall a, b | IsLeast(a, s) && IsLeast(b, s)
        ensures a == b
      {
        LeastIsUnique(a, b, s);
      }
    }
    var x :| x in s && IsLeast(x, s);
    x
  }

  ghost function LeastWitness(s: set<string>): (x: string)
    requires s != {}
    ensures IsLeast(x, s)
  {
    assert exists x :: IsLeast(x, s) by {
      var x := LeastExists(s);
    }
    var x :| IsLeast(x, s);
    x
  }

  /** The elements of `s`, each once, in order. */
  function Sorted(s: set<string>): (e: seq<string>)
    ensures Elements(e) == s
    decreases s
  {
    if s == {} then []
    else
      var x := Least(s);
      var rest := Sorted(s - {x});
      assert Elements([x] + rest) == {x} + Elements(rest);
      [x] + rest
  }
}
