/** Sorting of finite sequences by a total order, as a function, with the one
    property every caller needs: the result does not depend on the input order. */
module Sorting {

  /** `le` totally orders the elements of `s`. */
  ghost predicate TotalOn<T>(le: (T, T) -> bool, s: seq<T>) {
    && (forall x, y | x in s && y in s :: le(x, y) || le(y, x))
    && (forall x, y | x in s && y in s && le(x, y) && le(y, x) :: x == y)
    && (forall x, y, z | x in s && y in s && z in s && le(x, y) && le(y, z) :: le(x, z))
  }

  ghost predicate SortedBy<T>(le: (T, T) -> bool, s: seq<T>) {
    forall i, j | 0 <= i < j < |s| :: le(s[i], s[j])
  }

  ghost predicate Distinct<T>(s: seq<T>) {
    forall i, j | 0 <= i < j < |s| :: s[i] != s[j]
  }

  function Insert<T>(le: (T, T) -> bool, x: T, s: seq<T>): (r: seq<T>)
    ensures multiset(r) == multiset(s) + multiset{x}
  {
    if s == [] then [x]
    else if le(x, s[0]) then [x] + s
    else
      assert s == [s[0]] + s[1..];
      [s[0]] + Insert(le, x, s[1..])
  }

  function Sort<T>(le: (T, T) -> bool, s: seq<T>): (r: seq<T>)
    ensures multiset(r) == multiset(s)
  {
    if s == [] then []
    else
      assert s == [s[0]] + s[1..];
      Insert(le, s[0], Sort(le, s[1..]))
  }

  lemma SameElements<T>(a: seq<T>, b: seq<T>)
    requires multiset(a) == multiset(b)
    ensures |a| == |b|
    ensures forall x | x in a :: x in b
    ensures forall x | x in b :: x in a
  {
    assert |a| == |multiset(a)| == |multiset(b)| == |b|;
    forall x | x in a ensures x in b {
      assert x in multiset(a);
    }
    forall x | x in b ensures x in a {
      assert x in multiset(b);
    }
  }

  lemma {:induction false} InsertSorted<T>(le: (T, T) -> bool, x: T, s: seq<T>)
    requires TotalOn(le, [x] + s) && SortedBy(le, s)
    ensures SortedBy(le, Insert(le, x, s))
  {
    var u := [x] + s;
    assert x == u[0] && forall y | y in s :: y in u;
    if s == [] {
    } else if le(x, s[0]) {
      forall i, j | 0 <= i < j < |u| ensures le(u[i], u[j]) {
        assert i == 0 ==> le(x, s[0]) && (j == 1 || le(s[0], s[j - 1]));
      }
    } else {
      assert forall y | y in s[1..] :: y in s;
      InsertSorted(le, x, s[1..]);
      var t := Insert(le, x, s[1..]);
      SameElements(t, s[1..] + [x]);
      forall y | y in t ensures le(s[0], y) {
        assert y in s[1..] + [x];
        if y != x {
          assert y in s[1..];
          var k :| 0 <= k < |s[1..]| && s[1..][k] == y;
          assert s[k + 1] == y;
        }
      }
    }
  }

  lemma {:induction false} SortSorted<T>(le: (T, T) -> bool, s: seq<T>)
    requires TotalOn(le, s)
    ensures SortedBy(le, Sort(le, s))
  {
    if s != [] {
      assert forall y | y in s[1..] :: y in s;
      SortSorted(le, s[1..]);
      var t := Sort(le, s[1..]);
      SameElements(t, s[1..]);
      forall y | y in [s[0]] + t ensures y in s {
        assert y == s[0] || y in t;
      }
      InsertSorted(le, s[0], t);
    }
  }

  lemma TotalOnSame<T>(le: (T, T) -> bool, a: seq<T>, b: seq<T>)
    requires TotalOn(le, a) && forall x | x in b :: x in a
    ensures TotalOn(le, b)
  {
  }

  /** Two sorted arrangements of the same elements are equal. */
  lemma {:induction false} SortedUnique<T>(le: (T, T) -> bool, a: seq<T>, b: seq<T>)
    requires TotalOn(le, a) && SortedBy(le, a) && SortedBy(le, b)
    requires multiset(a) == multiset(b)
    ensures a == b
  {
    SameElements(a, b);
    if a != [] {
      LeastFirst(le, a, b[0]);
      LeastFirst(le, b, a[0]);
      TailElements(a);
      TailElements(b);
      SortedUnique(le, a[1..], b[1..]);
      assert a == [a[0]] + a[1..] && b == [b[0]] + b[1..];
    }
  }

  lemma LeastFirst<T>(le: (T, T) -> bool, s: seq<T>, x: T)
    requires SortedBy(le, s) && x in s
    ensures s[0] == x || le(s[0], x)
  {
  }

  lemma TailElements<T>(s: seq<T>)
    requires s != []
    ensures multiset(s[1..]) == multiset(s) - multiset{s[0]}
    ensures forall y | y in s[1..] :: y in s
  {
    assert s == [s[0]] + s[1..];
  }

  /** Sorting by a total order forgets the order of its input. */
  lemma SortForgetsOrder<T>(le: (T, T) -> bool, a: seq<T>, b: seq<T>)
    requires TotalOn(le, a) && multiset(a) == multiset(b)
    ensures Sort(le, a) == Sort(le, b)
  {
    SameElements(a, b);
    TotalOnSame(le, a, b);
    SortSorted(le, a);
    SortSorted(le, b);
    SameElements(a, Sort(le, a));
    TotalOnSame(le, a, Sort(le, a));
    SortedUnique(le, Sort(le, a), Sort(le, b));
  }

  lemma DistinctCount<T>(s: seq<T>)
    ensures Distinct(s) <==> forall x | x in multiset(s) :: multiset(s)[x] == 1
  {
    if s != [] {
      assert s == [s[0]] + s[1..];
      DistinctCount(s[1..]);
      assert multiset(s) == multiset{s[0]} + multiset(s[1..]);
      if Distinct(s) {
        assert Distinct(s[1..]) by {
          forall i, j | 0 <= i < j < |s[1..]| ensures s[1..][i] != s[1..][j] {
            assert s[i + 1] != s[j + 1];
          }
        }
        assert s[0] !in s[1..];
      }
      if forall x | x in multiset(s) :: multiset(s)[x] == 1 {
        assert multiset(s)[s[0]] == 1;
        assert s[0] !in multiset(s[1..]);
        assert s[0] !in s[1..];
        forall x | x in multiset(s[1..]) ensures multiset(s[1..])[x] == 1 {
          assert x in multiset(s) && x != s[0];
        }
        forall i, j | 0 <= i < j < |s| ensures s[i] != s[j] {
          if i > 0 {
            assert s[1..][i - 1] != s[1..][j - 1];
          } else {
            assert s[j] == s[1..][j - 1] && s[1..][j - 1] in s[1..];
          }
        }
      }
    }
  }

  /** Rearranging a sequence keeps its elements distinct. */
  /** A part of a sequence without repetition has none either, and shares nothing with the rest. */
  lemma PartOfDistinct<T>(part: seq<T>, rest: seq<T>, all: seq<T>)
    requires multiset(part) + multiset(rest) == multiset(all) && Distinct(all)
    ensures Distinct(part)
    ensures forall x | x in part :: x in all && x !in rest
  {
    DistinctCount(all);
    forall x | x in multiset(part) ensures x in all && multiset(part)[x] == 1 && x !in rest {
      assert x in multiset(all) && multiset(all)[x] == multiset(part)[x] + multiset(rest)[x];
    }
    DistinctCount(part);
  }

  lemma DistinctPermutation<T>(a: seq<T>, b: seq<T>)
    requires multiset(a) == multiset(b) && Distinct(a)
    ensures Distinct(b)
  {
    DistinctCount(a);
    DistinctCount(b);
  }

  /** Distinct sequences over the same elements are rearrangements of each other. */
  lemma DistinctSameElements<T>(a: seq<T>, b: seq<T>)
    requires Distinct(a) && Distinct(b)
    requires forall x | x in a :: x in b
    requires forall x | x in b :: x in a
    ensures multiset(a) == multiset(b)
  {
    DistinctCount(a);
    DistinctCount(b);
    forall x ensures multiset(a)[x] == multiset(b)[x] {
      assert x in a <==> x in multiset(a);
      assert x in b <==> x in multiset(b);
    }
  }

  lemma {:induction false} DistinctLength<T>(s: seq<T>)
    requires Distinct(s)
    ensures |set x | x in s| == |s|
  {
    if s == [] {
      assert (set x | x in s) == {};
    } else {
      var front := s[..|s| - 1];
      DistinctLength(front);
      assert (set x | x in s) == (set x | x in front) + {s[|s| - 1]};
    }
  }

  lemma {:induction false} SetAsSequence<T>(items: set<T>) returns (s: seq<T>)
    ensures Distinct(s) && forall x :: x in s <==> x in items
  {
    if items == {} {
      s := [];
    } else {
      var x :| x in items;
      var rest := SetAsSequence(items - {x});
      s := rest + [x];
    }
  }

  // ----- dropping repetitions

  /** The first occurrences, in order: the keys of a dictionary filled from `s`. */
  function Unique<T(==)>(s: seq<T>): (r: seq<T>)
    ensures |r| <= |s|
    ensures forall x | x in s :: x in r
    ensures forall x | x in r :: x in s
  {
    if s == [] then []
    else
      var front, last := s[..|s| - 1], s[|s| - 1];
      assert s == front + [last];
      if last in front then Unique(front) else Unique(front) + [last]
  }

  lemma {:induction false} UniqueDistinct<T>(s: seq<T>)
    ensures Distinct(Unique(s))
  {
    if s != [] {
      UniqueDistinct(s[..|s| - 1]);
    }
  }

  /** Nothing is dropped exactly when nothing repeats. */
  lemma {:induction false} UniqueLength<T>(s: seq<T>)
    ensures |Unique(s)| == |s| <==> Distinct(s)
    ensures Distinct(s) ==> Unique(s) == s
  {
    if s != [] {
      var front, last := s[..|s| - 1], s[|s| - 1];
      assert s == front + [last];
      UniqueLength(front);
      if last in front {
        var k :| 0 <= k < |front| && front[k] == last;
        assert s[k] == s[|s| - 1];
      } else {
        assert Distinct(front) ==> Distinct(s);
        assert Distinct(s) ==> Distinct(front);
      }
    }
  }

  // ----- finite sets

  lemma Pick<T>(s: set<T>) returns (x: T)
    requires |s| > 0
    ensures x in s
  {
    x :| x in s;
  }

  lemma {:induction false} SubsetSize<T>(a: set<T>, b: set<T>)
    requires a <= b
    ensures |a| <= |b|
  {
    if a != {} {
      var x :| x in a;
      SubsetSize(a - {x}, b - {x});
    }
  }

  lemma SubsetOfEqualSize<T>(a: set<T>, b: set<T>)
    requires a <= b && |a| == |b|
    ensures a == b
  {
    if a != b {
      var x :| x in b && x !in a;
      SubsetSize(a, b - {x});
    }
  }

  function Elements<T(==)>(s: seq<T>): set<T> {
    set x | x in s
  }

  lemma {:induction false} ElementsSize<T>(s: seq<T>)
    ensures |Elements(s)| <= |s|
    ensures |Elements(s)| == |s| <==> Distinct(s)
  {
    if s != [] {
      var front, last := s[..|s| - 1], s[|s| - 1];
      assert s == front + [last];
      ElementsSize(front);
      assert Elements(s) == Elements(front) + {last};
      if last in front {
        var k :| 0 <= k < |front| && front[k] == last;
        assert s[k] == s[|s| - 1];
      } else {
        assert Distinct(front) ==> Distinct(s);
        assert Distinct(s) ==> Distinct(front);
      }
    }
  }
}
