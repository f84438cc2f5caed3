/** The search, dedupe and merge loop of qdrant_search_entity_payload (mcp_graph_rag.py). */
module TopK {
  import opened Common
  import opened Sorting

  /** What identifies a point: project, source, paragraph and text of its payload. */
  datatype PointKey = PointKey(project: string, source: string, paragraph: int, text: string)
  datatype Hit = Hit(key: PointKey, score: real)

  /** One collection found in a store: its points, and what a search of it answers.  The search fails
      when the collection is not up, and the failure is passed on when it is the only collection the
      store has for the query. */
  datatype Collection = Collection(points: seq<Hit>, answer: seq<Hit>, up: bool, alone: bool)

  /** The failure that is passed on. */
  predicate Refuses(c: Collection) { !c.up && c.alone }

  predicate Higher(a: Hit, b: Hit) { a.score > b.score }

  ghost predicate DistinctHits(hits: seq<Hit>) { forall i, j :: 0 <= i < j < |hits| ==> hits[i].key != hits[j].key }

  // ------------------------------------------------------------- one collection

  /** What a vector search promises: a best part of the points, of the asked size, each point once. */
  ghost predicate IsTop(points: seq<Hit>, k: nat, hits: seq<Hit>) {
    && multiset(hits) <= multiset(points) && |hits| <= k
    && (|hits| < k ==> forall p :: p in points ==> p in hits)
    && (forall p, h :: p in points && p !in hits && h in hits ==> p.score <= h.score)
  }

  ghost function KeySet(hits: seq<Hit>): set<PointKey> { set i | 0 <= i < |hits| :: hits[i].key }

  /** No key was pushed out of an answer by a repeated one: the answer is full of different keys, or
      every key of the collection is in it. */
  ghost predicate NothingHidden(points: seq<Hit>, k: nat, hits: seq<Hit>) {
    (|hits| == k && DistinctHits(hits)) || forall p :: p in points ==> p.key in KeySet(hits)
  }

  lemma HigherIsOrder()
    ensures WeakOrder(Higher)
  {
  }

  lemma PartElements(points: seq<Hit>, hits: seq<Hit>)
    requires multiset(hits) <= multiset(points)
    ensures forall h :: h in hits ==> h in points
  {
    forall h | h in hits
      ensures h in points
    {
      assert multiset(hits)[h] > 0;
      assert multiset(points)[h] > 0;
    }
  }

  /** A part of points with different keys has different keys. */
  lemma PartKeysDistinct(points: seq<Hit>, hits: seq<Hit>)
    requires DistinctHits(points) && multiset(hits) <= multiset(points)
    ensures DistinctHits(hits)
  {
    PartElements(points, hits);
    forall i, j | 0 <= i < j < |hits|
      ensures hits[i].key != hits[j].key
    {
      if hits[i].key == hits[j].key {
        assert hits[i] in points && hits[j] in points;
        assert hits[i] == hits[j];
        TwiceInMultiset(hits, i, j);
        OnceInMultiset(points, hits[i]);
      }
    }
  }

  lemma SortedKeysDistinct(points: seq<Hit>)
    requires DistinctHits(points)
    ensures DistinctHits(Sort(points, Higher))
  {
    SortPermutes(points, Higher);
    PartKeysDistinct(points, Sort(points, Higher));
  }

  lemma TwiceInMultiset(t: seq<Hit>, i: nat, j: nat)
    requires i < j < |t| && t[i] == t[j]
    ensures multiset(t)[t[i]] >= 2
  {
    assert t == t[..j] + [t[j]] + t[j + 1..];
    assert t[i] in t[..j];
  }

  lemma {:induction false} OnceInMultiset(s: seq<Hit>, x: Hit)
    requires DistinctHits(s)
    ensures multiset(s)[x] <= 1
  {
    if s != [] {
      var n := |s| - 1;
      OnceInMultiset(s[..n], x);
      assert s == s[..n] + [s[n]];
      assert s[n] !in s[..n];
    }
  }

  lemma PrefixIsPart(hits: seq<Hit>, n: nat)
    requires n <= |hits|
    ensures multiset(hits[..n]) <= multiset(hits)
  {
    assert hits == hits[..n] + hits[n..];
  }

  /** Sorting and cutting gives such an answer. */
  lemma SortedCutIsTop(points: seq<Hit>, k: nat)
    ensures IsTop(points, k, FirstOf(Sort(points, Higher), k))
  {
    var sorted := Sort(points, Higher);
    var n := if k < |sorted| then k else |sorted|;
    SortPermutes(points, Higher);
    PrefixIsPart(sorted, n);
    CutIsBest(points, n);
    if n == |sorted| {
      PermutationElements(points, sorted);
    }
    assert FirstOf(sorted, k) == sorted[..n];
  }

  lemma CutIsBest(points: seq<Hit>, n: nat)
    requires n <= |Sort(points, Higher)|
    ensures forall p, h :: p in points && p !in Sort(points, Higher)[..n] && h in Sort(points, Higher)[..n] ==>
      p.score <= h.score
  {
    HigherIsOrder();
    CutKeepsFirst(points, Higher, n);
  }

  /** A collection with different keys hides nothing, whatever best part it answers. */
  lemma DistinctHidesNothing(points: seq<Hit>, k: nat, hits: seq<Hit>)
    requires IsTop(points, k, hits) && DistinctHits(points)
    ensures NothingHidden(points, k, hits)
  {
    PartKeysDistinct(points, hits);
    if |hits| < k {
      forall p | p in points
        ensures p.key in KeySet(hits)
      {
        var i :| 0 <= i < |hits| && hits[i] == p;
      }
    }
  }

  // -------------------------------------------------------------------- merging

  type Merged = Dict<PointKey, Hit>

  function Offer(d: Merged, h: Hit): (r: Merged)
    ensures ValidDict(d) ==> ValidDict(r)
  {
    if h.key !in d.at || h.score > d.at[h.key].score then Put(d, h.key, h) else d
  }

  ghost predicate Filed(d: Merged) { forall k :: k in d.at ==> d.at[k].key == k }

  /** Scores only rise and keys only appear. */
  ghost predicate Rises(d: Merged, d': Merged) {
    forall k :: k in d.at ==> k in d'.at && d.at[k].score <= d'.at[k].score
  }

  /** Everything merged comes from these points. */
  ghost predicate DrawnFrom(d: Merged, seen: set<Hit>) { forall k :: k in d.at ==> d.at[k] in seen }

  ghost predicate Shown(d: Merged, p: Hit) { p.key in d.at && p.score <= d.at[p.key].score }

  ghost predicate AllReach(d: Merged, winners: set<PointKey>, score: real) {
    forall w :: w in winners ==> w in d.at && score <= d.at[w].score
  }

  /** At least k merged keys have this score or more. */
  ghost predicate Beaten(d: Merged, score: real, k: nat) {
    exists winners: set<PointKey> :: |winners| == k && AllReach(d, winners, score)
  }

  ghost predicate Accounted(d: Merged, p: Hit, k: nat) { Shown(d, p) || Beaten(d, p.score, k) }

  lemma RisingKeeps(d: Merged, d': Merged, p: Hit, k: nat)
    requires Rises(d, d') && Accounted(d, p, k)
    ensures Accounted(d', p, k)
  {
    if !Shown(d, p) {
      var winners: set<PointKey> :| |winners| == k && AllReach(d, winners, p.score);
      assert AllReach(d', winners, p.score);
    }
  }

  lemma OfferKeeps(d: Merged, h: Hit)
    requires ValidDict(d) && Filed(d)
    ensures ValidDict(Offer(d, h)) && Filed(Offer(d, h)) && Rises(d, Offer(d, h)) && Shown(Offer(d, h), h)
    ensures Adds(d, Offer(d, h), [h])
  {
  }

  /** What is new in the merge is among these hits. */
  ghost predicate Adds(d: Merged, d': Merged, hits: seq<Hit>) {
    forall k :: k in d'.at ==> (k in d.at && d'.at[k] == d.at[k]) || d'.at[k] in hits
  }

  lemma AddsMore(d: Merged, d': Merged, d'': Merged, hits: seq<Hit>, h: Hit)
    requires Adds(d, d', hits) && Adds(d', d'', [h]) && h in hits
    ensures Adds(d, d'', hits)
  {
  }

  lemma RisesMore(d: Merged, d': Merged, d'': Merged)
    requires Rises(d, d') && Rises(d', d'')
    ensures Rises(d, d'') && forall h :: Shown(d', h) ==> Shown(d'', h)
  {
  }

  /** All hits of an answer offered in order. */
  function OfferAll(d: Merged, hits: seq<Hit>): Merged {
    if hits == [] then d else Offer(OfferAll(d, hits[..|hits| - 1]), hits[|hits| - 1])
  }

  /** Merging keeps one row per key, never lowers a score, shows every hit and adds nothing else. */
  lemma {:induction false} OfferAllKeeps(d: Merged, hits: seq<Hit>)
    requires ValidDict(d) && Filed(d)
    ensures ValidDict(OfferAll(d, hits)) && Filed(OfferAll(d, hits)) && Rises(d, OfferAll(d, hits))
    ensures forall i :: 0 <= i < |hits| ==> Shown(OfferAll(d, hits), hits[i])
    ensures Adds(d, OfferAll(d, hits), hits)
  {
    if hits != [] {
      var n := |hits| - 1;
      var init := OfferAll(d, hits[..n]);
      OfferAllKeeps(d, hits[..n]);
      OfferKeeps(init, hits[n]);
      RisesMore(d, init, Offer(init, hits[n]));
      assert forall i :: 0 <= i < n ==> hits[..n][i] == hits[i];
      AddsMore(d, init, Offer(init, hits[n]), hits, hits[n]);
    }
  }

  method MergeHits(d: Merged, hits: seq<Hit>) returns (d': Merged)
    ensures d' == OfferAll(d, hits)
  {
    d' := d;
    for i := 0 to |hits|
      invariant d' == OfferAll(d, hits[..i])
    {
      assert hits[..i + 1][..i] == hits[..i];
      d' := Offer(d', hits[i]);
    }
    assert hits[..|hits|] == hits;
  }

  function KeysOf(hits: seq<Hit>): seq<PointKey> { seq(|hits|, i requires 0 <= i < |hits| => hits[i].key) }

  lemma KeysOfMeans(hits: seq<Hit>)
    ensures Elements(KeysOf(hits)) == KeySet(hits) && (Distinct(KeysOf(hits)) <==> DistinctHits(hits))
  {
    assert forall i :: 0 <= i < |hits| ==> KeysOf(hits)[i] == hits[i].key;
  }

  /** There are as many keys as hits exactly when none repeats. */
  lemma KeySetSize(hits: seq<Hit>)
    ensures |KeySet(hits)| <= |hits| && (|KeySet(hits)| == |hits| <==> DistinctHits(hits))
  {
    KeysOfMeans(hits);
    ElementsSize(KeysOf(hits));
  }

  lemma KeySetReaches(hits: seq<Hit>, d: Merged, score: real)
    requires forall i :: 0 <= i < |hits| ==> Shown(d, hits[i]) && score <= hits[i].score
    ensures AllReach(d, KeySet(hits), score)
  {
  }

  /** After its hits are merged, every point of a collection is shown or beaten by k others. */
  lemma CollectionAccounted(points: seq<Hit>, k: nat, hits: seq<Hit>, d: Merged, p: Hit)
    requires IsTop(points, k, hits) && NothingHidden(points, k, hits) && p in points
    requires forall i :: 0 <= i < |hits| ==> Shown(d, hits[i])
    ensures Accounted(d, p, k)
  {
    if p !in hits {
      assert forall i :: 0 <= i < |hits| ==> p.score <= hits[i].score;
      if p.key in KeySet(hits) {
        var i :| 0 <= i < |hits| && hits[i].key == p.key;
        assert Shown(d, hits[i]);
      } else {
        KeySetSize(hits);
        KeySetReaches(hits, d, p.score);
      }
    }
  }

  // -------------------------------------------------------------------- the cut

  ghost predicate Ranked(s: seq<Hit>) { forall i, j :: 0 <= i < j < |s| ==> s[i].score >= s[j].score }

  /** If k merged keys reach a score, so do the first k of the ranking. */
  lemma BeatenBelowTop(d: Merged, ranking: seq<Hit>, score: real, k: nat, i: nat)
    requires ValidDict(d) && Filed(d) && Ranked(ranking) && multiset(ranking) == multiset(Values(d))
    requires Beaten(d, score, k) && i < k
    ensures |ranking| >= k && ranking[i].score >= score
  {
    var winners: set<PointKey> :| |winners| == k && AllReach(d, winners, score);
    WinnersAreRanked(d, ranking, winners, score);
    SubsetSize(winners, Reached(ranking, score, |ranking|));
    if |ranking| <= i || ranking[i].score < score {
      FewReach(ranking, score, i);
    }
    ReachedSize(ranking, score, |ranking|);
  }

  lemma WinnersAreRanked(d: Merged, ranking: seq<Hit>, winners: set<PointKey>, score: real)
    requires ValidDict(d) && Filed(d) && multiset(ranking) == multiset(Values(d)) && AllReach(d, winners, score)
    ensures winners <= Reached(ranking, score, |ranking|)
  {
    PermutationElements(ranking, Values(d));
    forall w | w in winners
      ensures w in Reached(ranking, score, |ranking|)
    {
      var j := KeyPosition(d, w);
      assert Values(d)[j] in Values(d);
      var m :| 0 <= m < |ranking| && ranking[m] == Values(d)[j];
    }
  }

  ghost function Reached(ranking: seq<Hit>, score: real, n: nat): set<PointKey>
    requires n <= |ranking|
  {
    set j | 0 <= j < n && ranking[j].score >= score :: ranking[j].key
  }

  lemma ReachedSize(ranking: seq<Hit>, score: real, n: nat)
    requires n <= |ranking|
    ensures |Reached(ranking, score, n)| <= n
  {
    KeySetSize(ranking[..n]);
    forall key | key in Reached(ranking, score, n)
      ensures key in KeySet(ranking[..n])
    {
      var j :| 0 <= j < n && ranking[j].score >= score && ranking[j].key == key;
      assert ranking[..n][j].key == key;
    }
    SubsetSize(Reached(ranking, score, n), KeySet(ranking[..n]));
  }

  lemma FewReach(ranking: seq<Hit>, score: real, i: nat)
    requires Ranked(ranking) && (|ranking| <= i || ranking[i].score < score)
    ensures |Reached(ranking, score, |ranking|)| <= i
  {
    var n := if |ranking| <= i then |ranking| else i;
    ReachedSize(ranking, score, n);
    assert Reached(ranking, score, |ranking|) == Reached(ranking, score, n);
  }

  // ------------------------------------------------------------------- the search

  /** The points of the collections that answered. */
  ghost function Answered(cs: seq<Collection>): set<Hit> {
    if cs == [] then {}
    else Answered(cs[..|cs| - 1]) + if cs[|cs| - 1].up then Elements(cs[|cs| - 1].points) else {}
  }

  /** Every collection that is up answers with a best part. */
  ghost predicate Answers(cs: seq<Collection>, k: nat) {
    forall i :: 0 <= i < |cs| && cs[i].up ==> IsTop(cs[i].points, k, cs[i].answer)
  }

  ghost predicate KeysDiffer(cs: seq<Collection>) {
    forall i :: 0 <= i < |cs| && cs[i].up ==> DistinctHits(cs[i].points)
  }

  ghost predicate HidesNothing(cs: seq<Collection>, k: nat) {
    forall i :: 0 <= i < |cs| && cs[i].up ==> NothingHidden(cs[i].points, k, cs[i].answer)
  }

  /** A true top k of a set of points: best first, one row per key, each with the highest score its
      key has anywhere, and nothing left out that beats or could still join what is returned. */
  ghost predicate TrueTop(points: set<Hit>, k: nat, top: seq<Hit>) {
    && Ranked(top) && DistinctHits(top) && |top| <= k
    && (forall i :: 0 <= i < |top| ==> top[i] in points)
    && (forall p :: p in points ==> Represented(top, k, p))
  }

  /** A point is no better than the row of its key, and if its key is left out, than any row of a
      full answer. */
  ghost predicate Represented(top: seq<Hit>, k: nat, p: Hit) {
    && (forall i :: 0 <= i < |top| && p.key == top[i].key ==> p.score <= top[i].score)
    && (p.key !in KeySet(top) ==> |top| == k && forall i :: 0 <= i < |top| ==> p.score <= top[i].score)
  }

  /** Merged rows that come from these points, one under each key. */
  ghost predicate Merges(d: Merged, seen: set<Hit>) { ValidDict(d) && Filed(d) && DrawnFrom(d, seen) }

  ghost predicate AllAccounted(d: Merged, seen: set<Hit>, k: nat) { forall p :: p in seen ==> Accounted(d, p, k) }

  lemma MergeStep(d: Merged, seen: set<Hit>, points: seq<Hit>, k: nat, hits: seq<Hit>)
    requires Merges(d, seen) && IsTop(points, k, hits)
    ensures Merges(OfferAll(d, hits), seen + Elements(points))
  {
    PartElements(points, hits);
    OfferAllKeeps(d, hits);
  }

  lemma AccountStep(d: Merged, seen: set<Hit>, points: seq<Hit>, k: nat, hits: seq<Hit>)
    requires Merges(d, seen) && AllAccounted(d, seen, k) && IsTop(points, k, hits) && NothingHidden(points, k, hits)
    ensures AllAccounted(OfferAll(d, hits), seen + Elements(points), k)
  {
    var d' := OfferAll(d, hits);
    OfferAllKeeps(d, hits);
    forall p | p in seen + Elements(points)
      ensures Accounted(d', p, k)
    {
      if p in seen {
        RisingKeeps(d, d', p, k);
      } else {
        CollectionAccounted(points, k, hits, d', p);
      }
    }
  }

  /** Everything the collections that are up answered, merged in order. */
  function MergeAll(cs: seq<Collection>): Merged {
    if cs == [] then EmptyDict()
    else
      var d, c := MergeAll(cs[..|cs| - 1]), cs[|cs| - 1];
      if c.up then OfferAll(d, c.answer) else d
  }

  /** The merged rows sorted and cut. */
  function Best(d: Merged, k: nat): seq<Hit>
    requires ValidDict(d)
  {
    FirstOf(Sort(Values(d), Higher), k)
  }

  lemma {:induction false} MergeAllMerges(cs: seq<Collection>, k: nat)
    requires Answers(cs, k)
    ensures Merges(MergeAll(cs), Answered(cs))
  {
    if cs != [] {
      var n := |cs| - 1;
      MergeAllMerges(cs[..n], k);
      if cs[n].up {
        MergeStep(MergeAll(cs[..n]), Answered(cs[..n]), cs[n].points, k, cs[n].answer);
      }
    }
  }

  /** Answers that hide nothing account for every point. */
  lemma {:induction false} HidingNothingAccounts(cs: seq<Collection>, k: nat)
    requires Answers(cs, k) && HidesNothing(cs, k)
    ensures AllAccounted(MergeAll(cs), Answered(cs), k)
  {
    if cs != [] {
      var n := |cs| - 1;
      HidingNothingAccounts(cs[..n], k);
      MergeAllMerges(cs[..n], k);
      if cs[n].up {
        AccountStep(MergeAll(cs[..n]), Answered(cs[..n]), cs[n].points, k, cs[n].answer);
      }
    }
  }

  lemma DifferentKeysHideNothing(cs: seq<Collection>, k: nat)
    requires Answers(cs, k) && KeysDiffer(cs)
    ensures HidesNothing(cs, k)
  {
    forall i | 0 <= i < |cs| && cs[i].up
      ensures NothingHidden(cs[i].points, k, cs[i].answer)
    {
      DistinctHidesNothing(cs[i].points, k, cs[i].answer);
    }
  }

  /** When the merged, sorted and cut answers are a true top k. */
  lemma WhenTrueTop(cs: seq<Collection>, k: nat)
    requires Answers(cs, k)
    ensures ValidDict(MergeAll(cs))
    ensures TrueTop(Answered(cs), k, Best(MergeAll(cs), k)) <==> AllAccounted(MergeAll(cs), Answered(cs), k)
    ensures HidesNothing(cs, k) || KeysDiffer(cs) ==> TrueTop(Answered(cs), k, Best(MergeAll(cs), k))
  {
    MergeAllMerges(cs, k);
    TrueTopExactly(MergeAll(cs), Answered(cs), k);
    if KeysDiffer(cs) {
      DifferentKeysHideNothing(cs, k);
    }
    if HidesNothing(cs, k) {
      HidingNothingAccounts(cs, k);
    }
  }

  /** Search every collection, merge, sort and cut. */
  method SearchAll(cs: seq<Collection>, k: nat) returns (top: Option<seq<Hit>>)
    requires Answers(cs, k)
    ensures top.None? <==> exists i :: 0 <= i < |cs| && Refuses(cs[i])
    ensures top.Some? ==> (TrueTop(Answered(cs), k, top.value) <==> AllAccounted(MergeAll(cs), Answered(cs), k))
    ensures top.Some? && HidesNothing(cs, k) ==> TrueTop(Answered(cs), k, top.value)
    ensures top.Some? && KeysDiffer(cs) ==> TrueTop(Answered(cs), k, top.value)
  {
    var d: Merged := EmptyDict();
    for i := 0 to |cs|
      invariant d == MergeAll(cs[..i])
      invariant forall j :: 0 <= j < i ==> !Refuses(cs[j])
    {
      PrefixSnoc(cs, i);
      if cs[i].up {
        d := MergeHits(d, cs[i].answer);
      } else if cs[i].alone {
        return None;
      }
    }
    assert cs[..|cs|] == cs;
    WhenTrueTop(cs, k);
    top := Some(Best(d, k));
  }

  lemma RankingOf(d: Merged)
    requires ValidDict(d) && Filed(d)
    ensures var ranking := Sort(Values(d), Higher);
      Ranked(ranking) && DistinctHits(ranking) && multiset(ranking) == multiset(Values(d))
  {
    HigherIsOrder();
    SortPermutes(Values(d), Higher);
    SortSorts(Values(d), Higher);
    assert DistinctHits(Values(d)) by {
      assert forall i :: 0 <= i < |d.keys| ==> Values(d)[i].key == d.keys[i];
    }
    SortedKeysDistinct(Values(d));
  }

  /** A merged row is found in the ranking. */
  lemma RankOf(d: Merged, ranking: seq<Hit>, key: PointKey) returns (j: nat)
    requires ValidDict(d) && key in d.at && multiset(ranking) == multiset(Values(d))
    ensures j < |ranking| && ranking[j] == d.at[key]
  {
    PermutationElements(ranking, Values(d));
    var i := KeyPosition(d, key);
    assert Values(d)[i] in Values(d);
    j :| 0 <= j < |ranking| && ranking[j] == d.at[key];
  }

  lemma RankingIsMerged(d: Merged, ranking: seq<Hit>, i: nat)
    requires ValidDict(d) && Filed(d) && multiset(ranking) == multiset(Values(d)) && i < |ranking|
    ensures ranking[i].key in d.at && d.at[ranking[i].key] == ranking[i]
  {
    PermutationElements(ranking, Values(d));
    assert ranking[i] in Values(d);
  }

  lemma RankingIsDrawn(d: Merged, ranking: seq<Hit>, seen: set<Hit>)
    requires ValidDict(d) && Filed(d) && DrawnFrom(d, seen) && multiset(ranking) == multiset(Values(d))
    ensures forall i :: 0 <= i < |ranking| ==> ranking[i] in seen
  {
    forall i | 0 <= i < |ranking|
      ensures ranking[i] in seen
    {
      RankingIsMerged(d, ranking, i);
    }
  }

  lemma CutPoint(d: Merged, k: nat, ranking: seq<Hit>, p: Hit)
    requires ValidDict(d) && Filed(d) && Ranked(ranking) && DistinctHits(ranking)
      && multiset(ranking) == multiset(Values(d))
    requires Accounted(d, p, k)
    ensures Represented(FirstOf(ranking, k), k, p)
  {
    var top := FirstOf(ranking, k);
    if Shown(d, p) {
      var j := RankOf(d, ranking, p.key);
      assert j < |top| ==> top[j] == ranking[j] && top[j].key in KeySet(top);
      assert forall i :: 0 <= i < |top| ==> top[i] == ranking[i];
    } else if k > 0 {
      BeatenBelowTop(d, ranking, p.score, k, 0);
      forall i | 0 <= i < k
        ensures ranking[i].score >= p.score
      {
        BeatenBelowTop(d, ranking, p.score, k, i);
      }
    }
  }

  lemma CutIsTrueTop(d: Merged, seen: set<Hit>, k: nat)
    requires Merges(d, seen) && AllAccounted(d, seen, k)
    ensures TrueTop(seen, k, Best(d, k))
  {
    var ranking := Sort(Values(d), Higher);
    var top := FirstOf(ranking, k);
    RankingOf(d);
    RankingIsDrawn(d, ranking, seen);
    assert Ranked(top) && DistinctHits(top);
    forall p | p in seen
      ensures Represented(top, k, p)
    {
      CutPoint(d, k, ranking, p);
    }
  }

  /** A point that the answer represents is shown by the merged rows, or beaten by k of them. */
  lemma RepresentedIsAccounted(d: Merged, k: nat, p: Hit)
    requires ValidDict(d) && Filed(d) && DistinctHits(Best(d, k)) && Represented(Best(d, k), k, p)
    ensures Accounted(d, p, k)
  {
    var ranking, top := Sort(Values(d), Higher), Best(d, k);
    SortPermutes(Values(d), Higher);
    forall i | 0 <= i < |top|
      ensures top[i].key in d.at && d.at[top[i].key] == top[i]
    {
      RankingIsMerged(d, ranking, i);
    }
    if p.key in KeySet(top) {
      var i :| 0 <= i < |top| && top[i].key == p.key;
      assert Shown(d, p);
    } else {
      KeySetSize(top);
      KeySetReaches(top, d, p.score);
    }
  }

  /** The result is a true top k exactly when the merged rows account for every point. */
  lemma TrueTopExactly(d: Merged, seen: set<Hit>, k: nat)
    requires Merges(d, seen)
    ensures TrueTop(seen, k, Best(d, k)) <==> AllAccounted(d, seen, k)
  {
    if AllAccounted(d, seen, k) {
      CutIsTrueTop(d, seen, k);
    }
    if TrueTop(seen, k, Best(d, k)) {
      forall p | p in seen
        ensures Accounted(d, p, k)
      {
        RepresentedIsAccounted(d, k, p);
      }
    }
  }

  // --------------------------------------------------------------- repeated keys

  lemma MergedKeys(hits: seq<Hit>)
    ensures ValidDict(OfferAll(EmptyDict(), hits)) && OfferAll(EmptyDict(), hits).at.Keys == KeySet(hits)
  {
    var d: Merged := EmptyDict();
    OfferAllKeeps(d, hits);
    assert forall h :: h in hits ==> h.key in KeySet(hits);
  }

  /** The ranking of a merge that fits lists exactly the merged keys. */
  lemma FittingRanking(d: Merged, k: nat)
    requires ValidDict(d) && Filed(d) && |d.keys| <= k
    ensures |Best(d, k)| == |d.keys| && KeySet(Best(d, k)) == d.at.Keys
  {
    var ranking := Sort(Values(d), Higher);
    SortPermutes(Values(d), Higher);
    PermutationElements(ranking, Values(d));
    forall key
      ensures key in KeySet(ranking) <==> key in d.at
    {
      if key in d.at {
        var j := RankOf(d, ranking, key);
      }
      if key in KeySet(ranking) {
        var i :| 0 <= i < |ranking| && ranking[i].key == key;
        RankingIsMerged(d, ranking, i);
      }
    }
  }

  /** Of one collection the result is a true top k exactly when its answer hides nothing. */
  lemma OneCollectionExactly(points: seq<Hit>, k: nat, hits: seq<Hit>)
    requires IsTop(points, k, hits)
    ensures ValidDict(OfferAll(EmptyDict(), hits))
    ensures TrueTop(Elements(points), k, Best(OfferAll(EmptyDict(), hits), k)) <==> NothingHidden(points, k, hits)
  {
    var d: Merged := OfferAll(EmptyDict(), hits);
    MergedKeys(hits);
    OfferAllKeeps(EmptyDict(), hits);
    if NothingHidden(points, k, hits) {
      MergeStep(EmptyDict(), {}, points, k, hits);
      AccountStep(EmptyDict(), {}, points, k, hits);
      assert {} + Elements(points) == Elements(points);
      CutIsTrueTop(d, Elements(points), k);
    } else {
      var p :| p in points && p.key !in KeySet(hits);
      HiddenKeyIsMissed(points, k, hits, p);
    }
  }

  lemma HiddenKeyIsMissed(points: seq<Hit>, k: nat, hits: seq<Hit>, p: Hit)
    requires |hits| <= k && p in points && p.key !in KeySet(hits) && !(|hits| == k && DistinctHits(hits))
    ensures ValidDict(OfferAll(EmptyDict(), hits))
    ensures !TrueTop(Elements(points), k, Best(OfferAll(EmptyDict(), hits), k))
  {
    var d: Merged := OfferAll(EmptyDict(), hits);
    MergedKeys(hits);
    OfferAllKeeps(EmptyDict(), hits);
    KeySetSize(hits);
    assert Elements(d.keys) == d.at.Keys;
    ElementsSize(d.keys);
    FittingRanking(d, k);
    assert |Best(d, k)| < k;
    assert !Represented(Best(d, k), k, p);
  }

  /** The best two of three points may share a key. */
  lemma BestTwo(g: Hit, h: Hit, hidden: Hit)
    requires g.key == h.key != hidden.key && g.score >= h.score >= hidden.score
    ensures IsTop([g, h, hidden], 2, [g, h]) && !NothingHidden([g, h, hidden], 2, [g, h])
  {
    assert [g, h, hidden] == [g, h] + [hidden];
    assert hidden in [g, h, hidden];
    assert [g, h][0].key == [g, h][1].key;
    assert KeySet([g, h]) == {g.key};
  }

  function Crowded(g: Hit, h: Hit, hidden: Hit): Collection { Collection([g, h, hidden], [g, h], true, false) }

  function Single(last: Hit): Collection { Collection([last], [last], true, false) }

  lemma CrowdedAnswers(g: Hit, h: Hit, hidden: Hit, last: Hit)
    requires g.key == h.key != hidden.key && g.score >= h.score >= hidden.score
    ensures Answers([Crowded(g, h, hidden), Single(last)], 2)
  {
    BestTwo(g, h, hidden);
    assert IsTop([last], 2, [last]);
  }

  lemma CrowdedMerge(g: Hit, h: Hit, hidden: Hit, last: Hit)
    requires g.key == h.key != last.key && g.score >= h.score
    ensures var d := MergeAll([Crowded(g, h, hidden), Single(last)]);
      ValidDict(d) && Values(d) == [g, last]
  {
    TwoAnswers(Crowded(g, h, hidden), Single(last));
    ThreeOffers(g, h, last);
  }

  /** With another collection beside such an answer, the point pushed out can beat a returned one. */
  lemma RepeatedKeyHidesAPoint(g: Hit, h: Hit, hidden: Hit, last: Hit)
    requires g.key == h.key != hidden.key && last.key != g.key && last.key != hidden.key
    requires g.score >= h.score >= hidden.score > last.score
    ensures var cs := [Crowded(g, h, hidden), Single(last)];
      && Answers(cs, 2) && ValidDict(MergeAll(cs))
      && last in Best(MergeAll(cs), 2) && !TrueTop(Answered(cs), 2, Best(MergeAll(cs), 2))
  {
    var c, c' := Crowded(g, h, hidden), Single(last);
    CrowdedAnswers(g, h, hidden, last);
    CrowdedMerge(g, h, hidden, last);
    TwoAnswers(c, c');
    assert c.points[2] == hidden;
    MissingKeyBeatsLast(Answered([c, c']), [g, last], hidden, last);
  }

  /** A lower hit with the key of a higher one leaves no trace. */
  lemma ThreeOffers(g: Hit, h: Hit, last: Hit)
    requires g.key == h.key != last.key && g.score >= h.score
    ensures var d := OfferAll(OfferAll(EmptyDict(), [g, h]), [last]);
      ValidDict(d) && Values(d) == [g, last]
  {
    OfferAllSnoc(EmptyDict(), [], g);
    OfferAllSnoc(EmptyDict(), [g], h);
    OfferAllSnoc(Offer(EmptyDict(), g), [], last);
    assert [] + [g] == [g] && [g] + [h] == [g, h] && [] + [last] == [last];
    TwoRows(g, last);
  }

  lemma OfferAllSnoc(d: Merged, hits: seq<Hit>, h: Hit)
    ensures OfferAll(d, hits + [h]) == Offer(OfferAll(d, hits), h)
  {
    assert (hits + [h])[..|hits|] == hits;
  }

  lemma TwoRows(g: Hit, last: Hit)
    requires g.key != last.key
    ensures var d := Offer(Offer(EmptyDict(), g), last);
      ValidDict(d) && Values(d) == [g, last]
  {
    assert Offer(Offer(EmptyDict(), g), last).keys == [g.key, last.key];
  }

  lemma TwoAnswers(a: Collection, b: Collection)
    requires a.up && b.up
    ensures MergeAll([a, b]) == OfferAll(OfferAll(EmptyDict(), a.answer), b.answer)
    ensures Answered([a, b]) == Elements(a.points) + Elements(b.points)
  {
    assert [a, b][..1] == [a] && [a][..0] == [];
    assert MergeAll([a]) == OfferAll(EmptyDict(), a.answer);
    assert Answered([a]) == {} + Elements(a.points);
  }

  lemma MissingKeyBeatsLast(points: set<Hit>, values: seq<Hit>, missing: Hit, last: Hit)
    requires missing in points && last in values && last.score < missing.score
    requires |values| == 2 && forall h :: h in values ==> h.key != missing.key
    ensures last in FirstOf(Sort(values, Higher), 2)
    ensures !TrueTop(points, 2, FirstOf(Sort(values, Higher), 2))
  {
    var top := Sort(values, Higher);
    SortPermutes(values, Higher);
    PermutationElements(values, top);
    assert FirstOf(top, 2) == top;
    var i :| 0 <= i < |top| && top[i] == last;
    assert missing.key !in KeySet(top);
    assert !Represented(top, 2, missing);
  }
}
