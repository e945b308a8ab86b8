/** Sorted integer tuples: the Python idiom `tuple(sorted(set(values)))`. */
module Sorting {

  ghost predicate StrictlyIncreasing(s: seq<int>) {
    forall i, j :: 0 <= i < j < |s| ==> s[i] < s[j]
  }

  function Elements(s: seq<int>): set<int> {
    set x | x in s
  }

  ghost predicate IsMinimum(m: int, s: set<int>) {
    m in s && forall x :: x in s ==> m <= x
  }

  lemma Member<T>(s: set<T>) returns (x: T)
    requires s != {}
    ensures x in s
  {
    x :| x in s;
  }

  lemma {:induction false} MinimumExists(s: set<int>)
    requires s != {}
    ensures exists m :: IsMinimum(m, s)
    decreases |s|
  {
    var x := Member(s);
    if s == {x} {
      assert IsMinimum(x, s);
    } else {
      MinimumExists(s - {x});
      var m :| IsMinimum(m, s - {x});
      assert forall y :: y in s && y != x ==> y in s - {x};
      assert IsMinimum(if m < x then m else x, s);
    }
  }

  function Minimum(s: set<int>): (m: int)
    requires s != {}
    ensures IsMinimum(m, s)
  {
    MinimumExists(s);
    var m :| m in s && forall x :: x in s ==> m <= x;
    m
  }

  /** The members of a set in increasing order. */
  function Sorted(s: set<int>): (r: seq<int>)
    ensures StrictlyIncreasing(r)
    ensures forall x :: x in r <==> x in s
    decreases |s|
  {
    if s == {} then []
    else
      var m := Minimum(s);
      [m] + Sorted(s - {m})
  }

  lemma SortedElements(s: set<int>)
    ensures Elements(Sorted(s)) == s
  {}

  /** A strictly increasing sequence is determined by its members. */
  lemma {:induction false} IncreasingUnique(a: seq<int>, b: seq<int>)
    requires StrictlyIncreasing(a) && StrictlyIncreasing(b)
    requires Elements(a) == Elements(b)
    ensures a == b
  {
    if a == [] || b == [] {
      EmptyElements(a);
      EmptyElements(b);
    } else {
      assert a[0] in Elements(b) && b[0] in Elements(a);
      TailElements(a);
      TailElements(b);
      IncreasingUnique(a[1..], b[1..]);
      assert a == [a[0]] + a[1..] && b == [b[0]] + b[1..];
    }
  }

  lemma EmptyElements(a: seq<int>)
    ensures a == [] <==> Elements(a) == {}
  {
    assert a != [] ==> a[0] in Elements(a);
  }

  lemma TailElements(a: seq<int>)
    requires a != [] && StrictlyIncreasing(a)
    ensures Elements(a[1..]) == Elements(a) - {a[0]}
  {
    assert a == [a[0]] + a[1..];
    forall x | x in Elements(a) - {a[0]} ensures x in Elements(a[1..]) {
      var i :| 0 <= i < |a| && a[i] == x;
      assert a[1..][i - 1] == x;
    }
  }

  lemma SortedFixes(a: seq<int>)
    requires StrictlyIncreasing(a)
    ensures Sorted(Elements(a)) == a
  {
    SortedElements(Elements(a));
    IncreasingUnique(Sorted(Elements(a)), a);
  }

  lemma Append(s: seq<int>, x: int)
    requires StrictlyIncreasing(s) && forall y :: y in Elements(s) ==> y < x
    ensures StrictlyIncreasing(s + [x])
    ensures Elements(s + [x]) == Elements(s) + {x}
  {
    forall i, j | 0 <= i < j < |s| + 1 ensures (s + [x])[i] < (s + [x])[j] {
      assert s[i] in Elements(s);
    }
    forall y | y in Elements(s) + {x} ensures y in Elements(s + [x]) {
      if y != x {
        var i :| 0 <= i < |s| && s[i] == y;
        assert (s + [x])[i] == y;
      } else {
        assert (s + [x])[|s|] == y;
      }
    }
  }
}
