/** Sorting by a given order, and the fact that makes the result independent of the input order. */
module Sorting {

  ghost predicate TotalOrder<T(!new)>(le: (T, T) -> bool) {
    && (forall x, y :: le(x, y) || le(y, x))
    && (forall x, y, z :: le(x, y) && le(y, z) ==> le(x, z))
  }

  ghost predicate Sorted<T>(s: seq<T>, le: (T, T) -> bool) {
    forall i, j | 0 <= i < j < |s| :: le(s[i], s[j])
  }

  function Insert<T>(x: T, s: seq<T>, le: (T, T) -> bool): seq<T> {
    if s == [] || le(x, s[0]) then [x] + s else [s[0]] + Insert(x, s[1..], le)
  }

  function Sort<T>(s: seq<T>, le: (T, T) -> bool): seq<T> {
    if s == [] then [] else Insert(s[0], Sort(s[1..], le), le)
  }

  lemma {:induction false} InsertCorrect<T(!new)>(x: T, s: seq<T>, le: (T, T) -> bool)
    requires TotalOrder(le) && Sorted(s, le)
    ensures Sorted(Insert(x, s, le), le)
    ensures multiset(Insert(x, s, le)) == multiset{x} + multiset(s)
  {
    if s == [] || le(x, s[0]) {
      var r := [x] + s;
      forall i, j | 0 <= i < j < |r| ensures le(r[i], r[j]) {
        if i == 0 && j > 1 {
          assert le(s[0], s[j - 1]);
        }
      }
    } else {
      InsertCorrect(x, s[1..], le);
      var t := Insert(x, s[1..], le);
      var r := [s[0]] + t;
      assert s == [s[0]] + s[1..];
      forall i, j | 0 <= i < j < |r| ensures le(r[i], r[j]) {
        if i == 0 {
          assert t[j - 1] in multiset(t);
          assert t[j - 1] == x || t[j - 1] in s[1..];
        }
      }
    }
  }

  lemma {:induction false} SortCorrect<T(!new)>(s: seq<T>, le: (T, T) -> bool)
    requires TotalOrder(le)
    ensures Sorted(Sort(s, le), le)
    ensures multiset(Sort(s, le)) == multiset(s)
  {
    if s == [] {
    } else {
      SortCorrect(s[1..], le);
      InsertCorrect(s[0], Sort(s[1..], le), le);
      assert s == [s[0]] + s[1..];
    }
  }

  /** No two different elements are tied. */
  ghost predicate NoTies<T>(s: seq<T>, le: (T, T) -> bool) {
    forall i, j | 0 <= i < |s| && 0 <= j < |s| :: le(s[i], s[j]) && le(s[j], s[i]) ==> s[i] == s[j]
  }

  lemma SortedHeads<T>(a: seq<T>, b: seq<T>, le: (T, T) -> bool)
    requires Sorted(a, le) && Sorted(b, le) && NoTies(a, le) && multiset(a) == multiset(b) && a != []
    ensures b != [] && a[0] == b[0]
  {
    assert |multiset(a)| == |multiset(b)|;
    assert a[0] in multiset(b) && b[0] in multiset(a);
    var i :| 0 <= i < |a| && a[i] == b[0];
    var j :| 0 <= j < |b| && b[j] == a[0];
  }

  lemma TailMultiset<T>(s: seq<T>)
    requires s != []
    ensures multiset(s[1..]) == multiset(s) - multiset{s[0]}
  {
    assert s == [s[0]] + s[1..];
  }

  /** Two sorted arrangements of the same elements agree. */
  lemma {:induction false} SortedUnique<T>(a: seq<T>, b: seq<T>, le: (T, T) -> bool)
    requires Sorted(a, le) && Sorted(b, le) && NoTies(a, le) && multiset(a) == multiset(b)
    ensures a == b
    decreases |a|
  {
    if a == [] {
      assert |multiset(b)| == 0;
    } else {
      SortedHeads(a, b, le);
      TailMultiset(a);
      TailMultiset(b);
      SortedUnique(a[1..], b[1..], le);
      assert a == [a[0]] + a[1..] && b == [b[0]] + b[1..];
    }
  }
}
