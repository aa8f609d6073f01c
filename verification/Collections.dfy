/** Options, and facts about sequences and finite sets. */
module Collections {
  datatype Option<+T> = None | Some(value: T)

  function Elements<T(==)>(s: seq<T>): set<T> {
    set x | x in s
  }

  lemma ElementsAppend<T>(s: seq<T>, x: T)
    ensures Elements(s + [x]) == Elements(s) + {x}
  {
  }

  ghost predicate Distinct<T>(s: seq<T>) {
    forall i, j | 0 <= i < j < |s| :: s[i] != s[j]
  }

  lemma DistinctTail<T>(s: seq<T>)
    requires Distinct(s) && s != []
    ensures Distinct(s[1..]) && s[0] !in s[1..]
  {
  }

  lemma DistinctAppend<T>(a: seq<T>, b: seq<T>)
    requires Distinct(a) && Distinct(b) && Elements(a) !! Elements(b)
    ensures Distinct(a + b) && Elements(a + b) == Elements(a) + Elements(b)
  {
    forall i, j | 0 <= i < j < |a + b|
      ensures (a + b)[i] != (a + b)[j]
    {
      assert i < |a| ==> a[i] in Elements(a);
      assert j >= |a| ==> b[j - |a|] in Elements(b);
    }
  }

  lemma {:induction false} SubsetSize<T>(small: set<T>, big: set<T>)
    requires small <= big
    ensures |small| <= |big|
    decreases small
  {
    if x :| x in small {
      SubsetSize(small - {x}, big - {x});
    }
  }

  lemma SubsetOfSameSize<T>(small: set<T>, big: set<T>)
    requires small <= big && |small| >= |big|
    ensures small == big
  {
    if !(big <= small) {
      var x :| x in big && x !in small;
      SubsetSize(small, big - {x});
    }
  }
}
