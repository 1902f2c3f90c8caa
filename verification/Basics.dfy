/** Small shared vocabulary. */
module Basics {

  /** A byte string: one char per byte. */
  type Bytes = seq<char>

  datatype Option<+T> = None | Some(value: T)

  function Front<T>(s: seq<T>): seq<T>
    requires s != []
  {
    s[..|s| - 1]
  }

  function Last<T>(s: seq<T>): T
    requires s != []
  {
    s[|s| - 1]
  }

  lemma FrontLast<T>(s: seq<T>, x: T)
    ensures Front(s + [x]) == s && Last(s + [x]) == x
  {}

  lemma {:induction false} SubsetSize<T>(a: set<T>, b: set<T>)
    requires a <= b
    ensures |a| <= |b|
  {
    if a != {} {
      var x :| x in a;
      SubsetSize(a - {x}, b - {x});
    }
  }

  function Max(a: nat, b: nat): nat {
    if a < b then b else a
  }

  function Elements<T(==)>(s: seq<T>): set<T> {
    set x | x in s
  }

  predicate Distinct<T(==)>(s: seq<T>) {
    s == [] || (s[0] !in s[1..] && Distinct(s[1..]))
  }

  lemma {:induction false} DistinctAt<T>(s: seq<T>, i: nat, j: nat)
    requires Distinct(s) && i < j < |s|
    ensures s[i] != s[j]
  {
    if i > 0 {
      DistinctAt(s[1..], i - 1, j - 1);
    } else {
      assert s[j] == s[1..][j - 1];
    }
  }

  lemma {:induction false} DistinctCat<T>(a: seq<T>, b: seq<T>)
    ensures Distinct(a + b) <==> Distinct(a) && Distinct(b) && Elements(a) !! Elements(b)
  {
    if a == [] {
      assert a + b == b;
    } else {
      assert (a + b)[1..] == a[1..] + b;
      assert Elements(a) == {a[0]} + Elements(a[1..]);
      DistinctCat(a[1..], b);
    }
  }

  lemma DistinctFront<T>(s: seq<T>)
    requires s != []
    ensures Distinct(s) <==> Distinct(Front(s)) && Last(s) !in Front(s)
  {
    assert s == Front(s) + [Last(s)];
    assert [Last(s)][1..] == [] && Elements([Last(s)]) == {Last(s)};
    assert Last(s) in Front(s) <==> Last(s) in Elements(Front(s));
    DistinctCat(Front(s), [Last(s)]);
  }
}
