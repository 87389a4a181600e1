/** The lexicographic order of Python strings. */
module Strings {
  import Sorting

  predicate StringLe(a: string, b: string) {
    if a == [] then true
    else if b == [] then false
    else if a[0] == b[0] then StringLe(a[1..], b[1..])
    else a[0] < b[0]
  }

  lemma {:induction false} StringOrder(a: string, b: string)
    ensures StringLe(a, a)
    ensures StringLe(a, b) || StringLe(b, a)
    ensures StringLe(a, b) && StringLe(b, a) ==> a == b
  {
    if a != [] {
      StringOrder(a[1..], if b == [] then [] else b[1..]);
      if b != [] {
        assert a == [a[0]] + a[1..] && b == [b[0]] + b[1..];
      }
    }
  }

  lemma {:induction false} StringTransitive(a: string, b: string, c: string)
    requires StringLe(a, b) && StringLe(b, c)
    ensures StringLe(a, c)
  {
    if a != [] && b != [] && c != [] && a[0] == b[0] && b[0] == c[0] {
      StringTransitive(a[1..], b[1..], c[1..]);
    }
  }

  /** The order of any list of strings is total, so sorting it has one result. */
  lemma StringsTotal(s: seq<string>)
    ensures Sorting.TotalOn((a: string, b: string) => StringLe(a, b), s)
  {
    var le := (a: string, b: string) => StringLe(a, b);
    forall x, y | x in s && y in s ensures le(x, y) || le(y, x) {
      StringOrder(x, y);
    }
    forall x, y | x in s && y in s && le(x, y) && le(y, x) ensures x == y {
      StringOrder(x, y);
    }
    forall x, y, z | x in s && y in s && z in s && le(x, y) && le(y, z) ensures le(x, z) {
      StringTransitive(x, y, z);
    }
  }
}
