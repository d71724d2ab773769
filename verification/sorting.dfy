/** The stable sort behind every `.sort(compare)`: its result is ordered, keeps
    the elements, and is the only such result when ties are equal elements. */
module Sorting {
  import Texts

  ghost predicate TotalPreorder<T(!new)>(le: (T, T) -> bool) {
    && (forall x, y :: le(x, y) || le(y, x))
    && (forall x, y, z :: le(x, y) && le(y, z) ==> le(x, z))
  }

  ghost predicate Sorted<T>(s: seq<T>, le: (T, T) -> bool) {
    forall i, j :: 0 <= i < j < |s| ==> le(s[i], s[j])
  }

  /** Elements that compare equal are the same element. */
  ghost predicate TiesAreEqual<T(!new)>(s: seq<T>, le: (T, T) -> bool) {
    forall x, y :: x in s && y in s && le(x, y) && le(y, x) ==> x == y
  }

  /** Puts `x` behind every element it does not precede. */
  function Insert<T>(x: T, s: seq<T>, le: (T, T) -> bool): seq<T> {
    if s == [] then [x]
    else if le(s[|s| - 1], x) then s + [x]
    else Insert(x, s[..|s| - 1], le) + [s[|s| - 1]]
  }

  function Sort<T>(s: seq<T>, le: (T, T) -> bool): seq<T> {
    if s == [] then [] else Insert(s[|s| - 1], Sort(s[..|s| - 1], le), le)
  }

  lemma {:induction false} InsertKeeps<T>(x: T, s: seq<T>, le: (T, T) -> bool)
    ensures multiset(Insert(x, s, le)) == multiset(s) + multiset{x}
  {
    if s != [] && !le(s[|s| - 1], x) {
      InsertKeeps(x, s[..|s| - 1], le);
      assert s == s[..|s| - 1] + [s[|s| - 1]];
    }
  }

  lemma SortedSnoc<T>(s: seq<T>, last: T, le: (T, T) -> bool)
    requires Sorted(s, le) && forall i :: 0 <= i < |s| ==> le(s[i], last)
    ensures Sorted(s + [last], le)
  {
  }

  lemma InsertMembers<T>(x: T, s: seq<T>, le: (T, T) -> bool)
    ensures forall y :: y in Insert(x, s, le) ==> y == x || y in s
  {
    InsertKeeps(x, s, le);
    forall y | y in Insert(x, s, le) ensures y == x || y in s {
      assert y in multiset(Insert(x, s, le));
    }
  }

  lemma {:induction false} InsertSorted<T(!new)>(x: T, s: seq<T>, le: (T, T) -> bool)
    requires TotalPreorder(le) && Sorted(s, le)
    ensures Sorted(Insert(x, s, le), le)
  {
    if s != [] {
      var front, last := s[..|s| - 1], s[|s| - 1];
      if le(last, x) {
        SortedSnoc(s, x, le);
      } else {
        InsertSorted(x, front, le);
        InsertMembers(x, front, le);
        var r := Insert(x, front, le);
        forall i | 0 <= i < |r| ensures le(r[i], last) {
          assert r[i] in r;
          if r[i] != x {
            var j :| 0 <= j < |front| && s[j] == r[i];
          }
        }
        SortedSnoc(r, last, le);
      }
    }
  }

  lemma {:induction false} SortCorrect<T(!new)>(s: seq<T>, le: (T, T) -> bool)
    requires TotalPreorder(le)
    ensures Sorted(Sort(s, le), le)
    ensures multiset(Sort(s, le)) == multiset(s)
    ensures |Sort(s, le)| == |s|
  {
    if s != [] {
      var front := s[..|s| - 1];
      SortCorrect(front, le);
      InsertSorted(s[|s| - 1], Sort(front, le), le);
      InsertKeeps(s[|s| - 1], Sort(front, le), le);
      assert s == front + [s[|s| - 1]];
    }
    assert |multiset(Sort(s, le))| == |multiset(s)|;
  }

  lemma SortMembers<T(!new)>(s: seq<T>, le: (T, T) -> bool)
    requires TotalPreorder(le)
    ensures forall x :: x in Sort(s, le) <==> x in s
  {
    SortCorrect(s, le);
    forall x ensures x in Sort(s, le) <==> x in s {
      assert x in Sort(s, le) <==> x in multiset(Sort(s, le));
      assert x in s <==> x in multiset(s);
    }
  }

  lemma SameLast<T(!new)>(a: seq<T>, b: seq<T>, le: (T, T) -> bool)
    requires Sorted(a, le) && Sorted(b, le) && TotalPreorder(le)
    requires a != [] && b != [] && multiset(a) == multiset(b)
    requires TiesAreEqual(a, le)
    ensures a[|a| - 1] == b[|b| - 1]
  {
    var m, n := a[|a| - 1], b[|b| - 1];
    assert m in multiset(b) && n in multiset(a);
    assert le(m, m) && le(n, n);
    var i :| 0 <= i < |b| && b[i] == m;
    var j :| 0 <= j < |a| && a[j] == n;
    assert le(m, n) && le(n, m);
  }

  lemma {:induction false} SortedUnique<T(!new)>(a: seq<T>, b: seq<T>, le: (T, T) -> bool)
    requires TotalPreorder(le) && Sorted(a, le) && Sorted(b, le)
    requires multiset(a) == multiset(b)
    requires TiesAreEqual(a, le)
    ensures a == b
  {
    hide TotalPreorder, Sorted, TiesAreEqual;
    assert |multiset(a)| == |a| && |multiset(b)| == |b|;
    if a != [] {
      SameLast(a, b, le);
      FrontKeeps(a, le);
      FrontKeeps(b, le);
      assert a[..|a| - 1] + [a[|a| - 1]] == a && b[..|b| - 1] + [b[|b| - 1]] == b;
      SortedUnique(a[..|a| - 1], b[..|b| - 1], le);
    }
  }

  lemma FrontKeeps<T(!new)>(s: seq<T>, le: (T, T) -> bool)
    requires s != [] && Sorted(s, le)
    ensures Sorted(s[..|s| - 1], le)
    ensures TiesAreEqual(s, le) ==> TiesAreEqual(s[..|s| - 1], le)
    ensures multiset(s[..|s| - 1]) == multiset(s) - multiset{s[|s| - 1]}
  {
    assert s == s[..|s| - 1] + [s[|s| - 1]];
    assert forall x :: x in s[..|s| - 1] ==> x in s;
  }

  /** Reordering the input does not change the sorted output. */
  lemma SortInvariant<T(!new)>(a: seq<T>, b: seq<T>, le: (T, T) -> bool)
    requires TotalPreorder(le)
    requires multiset(a) == multiset(b)
    requires TiesAreEqual(a, le)
    ensures Sort(a, le) == Sort(b, le)
  {
    SortCorrect(a, le);
    SortCorrect(b, le);
    SortMembers(a, le);
    SortedUnique(Sort(a, le), Sort(b, le), le);
  }

  /** The elements that tie with one, in their order. */
  function Tied<T>(s: seq<T>, x: T, le: (T, T) -> bool): seq<T> {
    if s == [] then []
    else
      var last := s[|s| - 1];
      Tied(s[..|s| - 1], x, le) + if le(x, last) && le(last, x) then [last] else []
  }

  lemma {:induction false} InsertStable<T(!new)>(y: T, s: seq<T>, x: T, le: (T, T) -> bool)
    requires TotalPreorder(le)
    ensures Tied(Insert(y, s, le), x, le) == Tied(s, x, le) + if le(x, y) && le(y, x) then [y] else []
  {
    if s != [] {
      var front, last := s[..|s| - 1], s[|s| - 1];
      if le(last, y) {
        assert (s + [y])[..|s|] == s;
      } else {
        InsertStable(y, front, x, le);
        var r := Insert(y, front, le);
        assert (r + [last])[..|r|] == r;
      }
    }
  }

  /** Sorting leaves elements that tie in the order they came in. */
  lemma {:induction false} SortStable<T(!new)>(s: seq<T>, x: T, le: (T, T) -> bool)
    requires TotalPreorder(le)
    ensures Tied(Sort(s, le), x, le) == Tied(s, x, le)
  {
    if s != [] {
      SortStable(s[..|s| - 1], x, le);
      InsertStable(s[|s| - 1], Sort(s[..|s| - 1], le), x, le);
    }
  }

  /** The order of whole numbers. */
  predicate AtMost(a: int, b: int) { a <= b }

  lemma AtMostTotal()
    ensures TotalPreorder(AtMost)
  {
  }

  /** The order of texts; only a text itself ties with it. */
  lemma TextOrder(ts: seq<Texts.Text>)
    ensures TotalPreorder(Texts.Le) && TiesAreEqual(ts, Texts.Le)
  {
    forall a, b ensures Texts.Le(a, b) || Texts.Le(b, a) {
      Texts.LeTotal(a, b);
    }
    forall a, b, c | Texts.Le(a, b) && Texts.Le(b, c) ensures Texts.Le(a, c) {
      Texts.LeTransitive(a, b, c);
    }
    forall a, b | Texts.Le(a, b) && Texts.Le(b, a) ensures a == b {
      Texts.LeAntisymmetric(a, b);
    }
  }
}
