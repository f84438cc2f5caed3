/** Stable sorting by a comparison, as list.sort does, and what a cut after sorting keeps. */
module Sorting {
  import opened Common

  /** before(a, b): a must come first.  Elements neither way round are equivalent. */
  ghost predicate WeakOrder<T(!new)>(before: (T, T) -> bool) {
    && (forall a, b :: before(a, b) ==> !before(b, a))
    && (forall a, b, c :: before(a, c) ==> before(a, b) || before(b, c))
  }

  ghost predicate SortedBy<T>(s: seq<T>, before: (T, T) -> bool) {
    forall i, j :: 0 <= i < j < |s| ==> !before(s[j], s[i])
  }

  /** Put x behind everything it does not come before. */
  function Insert<T>(s: seq<T>, x: T, before: (T, T) -> bool): seq<T> {
    if s == [] || !before(x, s[|s| - 1]) then s + [x]
    else Insert(s[..|s| - 1], x, before) + [s[|s| - 1]]
  }

  function Sort<T>(s: seq<T>, before: (T, T) -> bool): seq<T> {
    if s == [] then [] else Insert(Sort(s[..|s| - 1], before), s[|s| - 1], before)
  }

  lemma {:induction false} InsertPermutes<T>(s: seq<T>, x: T, before: (T, T) -> bool)
    ensures multiset(Insert(s, x, before)) == multiset(s) + multiset{x}
  {
    if s != [] && before(x, s[|s| - 1]) {
      InsertPermutes(s[..|s| - 1], x, before);
      assert s == s[..|s| - 1] + [s[|s| - 1]];
    }
  }

  lemma {:induction false} SortPermutes<T>(s: seq<T>, before: (T, T) -> bool)
    ensures multiset(Sort(s, before)) == multiset(s)
  {
    if s != [] {
      SortPermutes(s[..|s| - 1], before);
      InsertPermutes(Sort(s[..|s| - 1], before), s[|s| - 1], before);
      assert s == s[..|s| - 1] + [s[|s| - 1]];
    }
  }

  lemma PermutationElements<T>(a: seq<T>, b: seq<T>)
    requires multiset(a) == multiset(b)
    ensures |a| == |b| && forall x :: x in a <==> x in b
  {
    assert |multiset(a)| == |a| && |multiset(b)| == |b|;
    forall x
      ensures x in a <==> x in b
    {
      assert x in multiset(a) <==> x in a;
      assert x in multiset(b) <==> x in b;
    }
  }

  lemma {:induction false} InsertSorts<T(!new)>(s: seq<T>, x: T, before: (T, T) -> bool)
    requires WeakOrder(before) && SortedBy(s, before)
    ensures SortedBy(Insert(s, x, before), before)
  {
    if s != [] && before(x, s[|s| - 1]) {
      var n := |s| - 1;
      InsertSorts(s[..n], x, before);
      InsertPermutes(s[..n], x, before);
      var t := Insert(s[..n], x, before);
      forall i | 0 <= i < |t|
        ensures !before(s[n], t[i])
      {
        assert t[i] in multiset(t);
        if t[i] != x {
          assert t[i] in s[..n];
          var j :| 0 <= j < n && s[..n][j] == t[i];
          assert s[j] == t[i];
        }
      }
    } else {
      forall i | 0 <= i < |s|
        ensures !before(x, s[i])
      {
        assert i < |s| - 1 ==> !before(s[|s| - 1], s[i]);
      }
    }
  }

  lemma {:induction false} SortSorts<T(!new)>(s: seq<T>, before: (T, T) -> bool)
    requires WeakOrder(before)
    ensures SortedBy(Sort(s, before), before)
  {
    if s != [] {
      SortSorts(s[..|s| - 1], before);
      InsertSorts(Sort(s[..|s| - 1], before), s[|s| - 1], before);
    }
  }

  /** Cutting a sorted list keeps elements of the list, and nothing cut comes before anything kept. */
  lemma CutKeepsFirst<T(!new)>(s: seq<T>, before: (T, T) -> bool, n: nat)
    requires WeakOrder(before) && n <= |Sort(s, before)|
    ensures |Sort(s, before)| == |s|
    ensures forall x :: x in Sort(s, before)[..n] ==> x in s
    ensures forall x, y :: x in s && x !in Sort(s, before)[..n] && y in Sort(s, before)[..n] ==> !before(x, y)
  {
    var t := Sort(s, before);
    SortPermutes(s, before);
    SortSorts(s, before);
    PermutationElements(s, t);
    forall x | x in t[..n]
      ensures x in s
    {
      assert x in t;
    }
    forall x, y | x in s && x !in t[..n] && y in t[..n]
      ensures !before(x, y)
    {
      assert x in t;
      assert t == t[..n] + t[n..];
      var i :| 0 <= i < |t| - n && t[n..][i] == x;
      var j :| 0 <= j < n && t[..n][j] == y;
      assert t[n + i] == x && t[j] == y;
    }
  }

  // ----------------------------------------------------------- order on strings

  predicate TextBefore(a: string, b: string) {
    if b == "" then false
    else if a == "" then true
    else a[0] < b[0] || (a[0] == b[0] && TextBefore(a[1..], b[1..]))
  }

  lemma {:induction false} TextAsymmetric(a: string, b: string)
    ensures TextBefore(a, b) ==> !TextBefore(b, a)
  {
    if a != "" && b != "" {
      TextAsymmetric(a[1..], b[1..]);
    }
  }

  lemma {:induction false} TextComparable(a: string, b: string, c: string)
    ensures TextBefore(a, c) ==> TextBefore(a, b) || TextBefore(b, c)
  {
    if a != "" && b != "" && c != "" {
      TextComparable(a[1..], b[1..], c[1..]);
    }
  }
}
