module Common {
  datatype Option<+T> = None | Some(value: T)

  /** An insertion-ordered dictionary: a key keeps the position of its first insertion,
      and a later assignment replaces its value in place. */
  datatype Dict<K, V> = Dict(keys: seq<K>, at: map<K, V>)

  ghost predicate Distinct<T>(s: seq<T>) { forall i, j :: 0 <= i < j < |s| ==> s[i] != s[j] }

  ghost predicate ValidDict<K, V>(d: Dict<K, V>) {
    && Distinct(d.keys)
    && (forall i :: 0 <= i < |d.keys| ==> d.keys[i] in d.at)
    && (forall k :: k in d.at ==> k in d.keys)
  }

  function EmptyDict<K, V>(): (d: Dict<K, V>)
    ensures ValidDict(d)
  {
    Dict([], map[])
  }

  function Put<K, V>(d: Dict<K, V>, k: K, v: V): (r: Dict<K, V>)
    ensures ValidDict(d) ==> ValidDict(r)
  {
    if k in d.at then Dict(d.keys, d.at[k := v]) else Dict(d.keys + [k], d.at[k := v])
  }

  function Values<K, V>(d: Dict<K, V>): (r: seq<V>)
    requires ValidDict(d)
    ensures |r| == |d.keys|
  {
    seq(|d.keys|, i requires 0 <= i < |d.keys| => d.at[d.keys[i]])
  }

  /** Where a key sits. */
  lemma KeyPosition<K, V>(d: Dict<K, V>, k: K) returns (i: nat)
    requires ValidDict(d) && k in d.at
    ensures i < |d.keys| && d.keys[i] == k && Values(d)[i] == d.at[k]
  {
    assert k in d.keys;
    i :| 0 <= i < |d.keys| && d.keys[i] == k;
  }

  /** What holds of every listed value holds under every key. */
  lemma AllValues<K(!new), V>(d: Dict<K, V>, p: V -> bool)
    requires ValidDict(d)
    ensures (forall i :: 0 <= i < |d.keys| ==> p(Values(d)[i])) <==> (forall k :: k in d.at ==> p(d.at[k]))
  {
    if forall i :: 0 <= i < |d.keys| ==> p(Values(d)[i]) {
      forall k | k in d.at
        ensures p(d.at[k])
      {
        var i := KeyPosition(d, k);
      }
    }
  }

  /** A loop of n steps. */
  function Iterate<T>(step: (T, nat) -> T, x: T, n: nat): T {
    if n == 0 then x else step(Iterate(step, x, n - 1), n - 1)
  }

  /** What every step keeps holds after the loop. */
  lemma {:induction false} IterateKeeps<T(!new)>(step: (T, nat) -> T, inv: (T, nat) -> bool, x: T, n: nat)
    requires inv(x, 0)
    requires forall y: T, i: nat :: i < n && inv(y, i) ==> inv(step(y, i), i + 1)
    ensures inv(Iterate(step, x, n), n)
  {
    if n > 0 {
      IterateKeeps(step, inv, x, n - 1);
      var y := Iterate(step, x, n - 1);
      assert inv(step(y, n - 1), n);
    }
  }

  /** At most the first n elements. */
  function FirstOf<T>(s: seq<T>, n: nat): seq<T> { if |s| <= n then s else s[..n] }

  function Elements<T>(s: seq<T>): set<T> { set x | x in s }

  lemma InSnoc<T>(s: seq<T>, x: T)
    requires s != []
    ensures x in s <==> x in s[..|s| - 1] || x == s[|s| - 1]
  {
    assert s == s[..|s| - 1] + [s[|s| - 1]];
  }

  /** A prefix one longer ends with the next element. */
  lemma PrefixSnoc<T>(s: seq<T>, i: nat)
    requires i < |s|
    ensures |s[..i + 1]| == i + 1 && s[..i + 1][..i] == s[..i] && s[..i + 1][i] == s[i]
  {
  }

  lemma ElementsSnoc<T>(s: seq<T>, x: T)
    ensures Elements(s + [x]) == Elements(s) + {x}
  {
  }

  lemma DistinctSnoc<T>(s: seq<T>, x: T)
    ensures Distinct(s + [x]) <==> Distinct(s) && x !in s
  {
    var t := s + [x];
    if Distinct(t) {
      assert forall i :: 0 <= i < |s| ==> t[i] == s[i] && t[|s|] == x;
    }
    if Distinct(s) && x !in s {
      assert forall i :: 0 <= i < |s| ==> s[i] != x;
    }
  }

  /** A sequence has as many elements as positions exactly when nothing repeats. */
  lemma {:induction false} ElementsSize<T>(s: seq<T>)
    ensures |Elements(s)| <= |s|
    ensures |Elements(s)| == |s| <==> Distinct(s)
  {
    if s != [] {
      var init, x := s[..|s| - 1], s[|s| - 1];
      ElementsSize(init);
      assert s == init + [x];
      ElementsSnoc(init, x);
      DistinctSnoc(init, x);
      assert x in init ==> Elements(init) + {x} == Elements(init);
    }
  }

  lemma SubsetSize<T>(a: set<T>, b: set<T>)
    requires a <= b
    ensures |a| <= |b|
    ensures |a| == |b| ==> a == b
  {
    assert b == a + (b - a);
  }
}
