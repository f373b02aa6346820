/** Sorting under a strict order given as a function: what `sort_by` promises, and why the outcome
    depends only on the elements. */
module Sorting {

  function Elements<T>(s: seq<T>): set<T> {
    set y | y in s
  }

  /** The members that come strictly before `x`. */
  function Earlier<T>(before: (T, T) -> bool, s: seq<T>, x: T): set<T> {
    set y | y in s && before(y, x)
  }

  predicate SortedBy<T>(before: (T, T) -> bool, s: seq<T>) {
    forall i, j :: 0 <= i < j < |s| ==> before(s[i], s[j])
  }

  ghost predicate StrictOrder<T(!new)>(before: (T, T) -> bool) {
    && (forall x :: !before(x, x))
    && (forall x, y, z :: before(x, y) && before(y, z) ==> before(x, z))
  }

  predicate TotalOn<T>(before: (T, T) -> bool, s: seq<T>) {
    forall i, j :: 0 <= i < j < |s| ==> before(s[i], s[j]) || before(s[j], s[i])
  }

  function Insert<T>(before: (T, T) -> bool, x: T, s: seq<T>): (r: seq<T>)
    ensures multiset(r) == multiset(s) + multiset{x}
    ensures |r| == |s| + 1
  {
    if s == [] then [x]
    else if before(x, s[0]) then [x] + s
    else
      assert s == [s[0]] + s[1..];
      [s[0]] + Insert(before, x, s[1..])
  }

  function SortBy<T>(before: (T, T) -> bool, s: seq<T>): (r: seq<T>)
    ensures multiset(r) == multiset(s)
    ensures |r| == |s|
  {
    if s == [] then []
    else
      assert s == [s[0]] + s[1..];
      Insert(before, s[0], SortBy(before, s[1..]))
  }

  lemma SameElements<T>(a: seq<T>, b: seq<T>)
    requires multiset(a) == multiset(b)
    ensures forall x :: x in a <==> x in b
  {
    forall x ensures x in a <==> x in b {
      assert x in a <==> x in multiset(a);
      assert x in b <==> x in multiset(b);
    }
  }

  lemma RemoveAt<T>(s: seq<T>, i: nat)
    requires i < |s|
    ensures multiset(s) == multiset(s[..i] + s[i + 1..]) + multiset{s[i]}
  {
    assert s == s[..i] + ([s[i]] + s[i + 1..]);
  }

  lemma {:induction false} InsertSorted<T(!new)>(before: (T, T) -> bool, x: T, s: seq<T>)
    requires StrictOrder(before) && SortedBy(before, s)
    requires forall y :: y in s ==> before(x, y) || before(y, x)
    ensures SortedBy(before, Insert(before, x, s))
  {
    if s != [] {
      if before(x, s[0]) {
        var r := [x] + s;
        forall i, j | 0 <= i < j < |r| ensures before(r[i], r[j]) {
          assert j > 1 ==> before(s[0], s[j - 1]);
        }
      } else {
        var tail := Insert(before, x, s[1..]);
        InsertSorted(before, x, s[1..]);
        assert before(s[0], x);
        forall y | y in tail ensures before(s[0], y) {
          assert y in multiset(tail);
          assert y == x || y in s[1..];
        }
        var r := [s[0]] + tail;
        forall i, j | 0 <= i < j < |r| ensures before(r[i], r[j]) {
          assert r[j] in tail;
        }
      }
    }
  }

  lemma {:induction false} SortBySorts<T(!new)>(before: (T, T) -> bool, s: seq<T>)
    requires StrictOrder(before) && TotalOn(before, s)
    ensures SortedBy(before, SortBy(before, s))
  {
    if s != [] {
      var tail := s[1..];
      SortBySorts(before, tail);
      var sorted := SortBy(before, tail);
      SameElements(sorted, tail);
      forall y | y in sorted ensures before(s[0], y) || before(y, s[0]) {
        var i :| 0 <= i < |tail| && tail[i] == y;
        assert y == s[i + 1];
      }
      InsertSorted(before, s[0], sorted);
    }
  }

  lemma FirstIsLeast<T>(before: (T, T) -> bool, s: seq<T>, x: T)
    requires SortedBy(before, s) && x in s
    ensures x == s[0] || before(s[0], x)
  {
  }

  lemma {:induction false} SortedUnique<T(!new)>(before: (T, T) -> bool, a: seq<T>, b: seq<T>)
    requires StrictOrder(before) && SortedBy(before, a) && SortedBy(before, b)
    requires forall x :: x in a <==> x in b
    ensures a == b
    decreases |a|
  {
    assert |b| > 0 ==> b[0] in b;
    if a != [] {
      assert a[0] in b && b[0] in a;
      FirstIsLeast(before, a, b[0]);
      FirstIsLeast(before, b, a[0]);
      forall x ensures x in a[1..] <==> x in b[1..] {
        if x in a[1..] {
          assert before(a[0], x) && x in b;
          var k :| 0 <= k < |b| && b[k] == x;
          assert b[1..][k - 1] == x;
        }
        if x in b[1..] {
          assert before(b[0], x) && x in a;
          var k :| 0 <= k < |a| && a[k] == x;
          assert a[1..][k - 1] == x;
        }
      }
      SortedUnique(before, a[1..], b[1..]);
    }
  }

  /** In a sorted list the number of elements before a member is its position. */
  lemma RankIsPosition<T(!new)>(before: (T, T) -> bool, s: seq<T>, p: nat)
    requires StrictOrder(before) && SortedBy(before, s) && p < |s|
    ensures |Earlier(before, s, s[p])| == p
  {
    var earlier := Earlier(before, s, s[p]);
    var front := Elements(s[..p]);
    forall y ensures y in earlier <==> y in front {
      if y in s {
        var i :| 0 <= i < |s| && s[i] == y;
        if i < p {
          assert s[..p][i] == y;
        } else if i > p {
          assert before(s[p], y);
        }
      }
    }
    assert earlier == front;
    PrefixSize(before, s, p);
  }

  lemma {:induction false} PrefixSize<T(!new)>(before: (T, T) -> bool, s: seq<T>, p: nat)
    requires StrictOrder(before) && SortedBy(before, s) && p <= |s|
    ensures |Elements(s[..p])| == p
  {
    if p > 0 {
      PrefixSize(before, s, p - 1);
      var smaller := Elements(s[..p - 1]);
      assert s[..p] == s[..p - 1] + [s[p - 1]];
      assert Elements(s[..p]) == smaller + {s[p - 1]};
      assert s[p - 1] !in s[..p - 1];
    }
  }
}
