/** build_match_index and compute_scored_pairs as they run: an index, a memo of key lists that
    paragraphs may share, per-document counters and dictionaries, all proved against Matcher. */
module MatcherLoop {
  import opened Common
  import opened Records
  import opened Build
  import opened Normalizers
  import opened Scoring
  import opened Sorting
  import opened Matcher

  type Index = map<KeyWords, seq<Symbol>>

  function At(index: Index, k: KeyWords): seq<Symbol> { if k in index then index[k] else [] }

  /** The index answers every key as a scan of all symbols would. */
  ghost predicate IsIndex(index: Index, symbols: seq<Symbol>) {
    && (forall k :: At(index, k) == Candidates(symbols, k))
    && (forall k :: k in index ==> index[k] != [])
  }

  // ------------------------------------------------------------------ the index

  lemma {:induction false} AddKeysDistinct(keys: seq<KeyWords>, texts: seq<string>)
    requires Distinct(keys)
    ensures Distinct(AddKeys(keys, texts))
  {
    if texts != [] {
      AddKeysDistinct(keys, texts[..|texts| - 1]);
    }
  }

  lemma SymbolKeysDistinct(s: Symbol)
    ensures Distinct(SymbolKeys(s))
  {
    AddKeysDistinct([], [s.name] + Segments(s.qualified));
  }

  method SymbolMatchKeys(s: Symbol) returns (keys: seq<KeyWords>)
    ensures keys == SymbolKeys(s)
  {
    var texts := [s.name] + Segments(s.qualified);
    keys := [];
    var seen: set<KeyWords> := {};
    for i := 0 to |texts|
      invariant keys == AddKeys([], texts[..i]) && seen == Elements(keys)
    {
      PrefixSnoc(texts, i);
      var k := MatchKey(texts[i]);
      if k != [] && k !in seen {
        ElementsSnoc(keys, k);
        keys := keys + [k];
        seen := seen + {k};
      }
    }
    assert texts[..|texts|] == texts;
  }

  /** The index while a new symbol is being filed under the first of its keys. */
  ghost predicate Filing(index: Index, symbols: seq<Symbol>, s: Symbol, keys: seq<KeyWords>) {
    && (forall k :: At(index, k) == Candidates(symbols, k) + if k in keys then [s] else [])
    && (forall k :: k in index ==> index[k] != [])
  }

  lemma FilingStep(index: Index, symbols: seq<Symbol>, s: Symbol, keys: seq<KeyWords>, k: KeyWords)
    requires Filing(index, symbols, s, keys) && k !in keys
    ensures Filing(index[k := At(index, k) + [s]], symbols, s, keys + [k])
  {
    var index' := index[k := At(index, k) + [s]];
    forall key
      ensures At(index', key) == Candidates(symbols, key) + if key in keys + [k] then [s] else []
    {
      assert key in keys + [k] <==> key in keys || key == k;
      assert At(index, key) == Candidates(symbols, key) + if key in keys then [s] else [];
    }
  }

  method File(index: Index, ghost symbols: seq<Symbol>, s: Symbol) returns (index': Index)
    requires IsIndex(index, symbols)
    ensures Filing(index', symbols, s, SymbolKeys(s))
  {
    SymbolKeysDistinct(s);
    var keys := SymbolMatchKeys(s);
    index' := index;
    for j := 0 to |keys|
      invariant Filing(index', symbols, s, keys[..j])
    {
      var k := keys[j];
      assert keys[..j + 1] == keys[..j] + [k];
      FilingStep(index', symbols, s, keys[..j], k);
      index' := index'[k := At(index', k) + [s]];
    }
    assert keys[..|keys|] == keys;
  }

  method BuildMatchIndex(symbols: seq<Symbol>) returns (index: Index)
    ensures IsIndex(index, symbols)
  {
    index := map[];
    var seen: set<Identity> := {};
    for i := 0 to |symbols|
      invariant IsIndex(index, symbols[..i])
      invariant forall id :: id in seen <==> KnownId(symbols[..i], id)
    {
      var s := symbols[i];
      var before := symbols[..i];
      assert symbols[..i + 1][..i] == before;
      KnownIdStep(before, s);
      assert symbols[..i + 1] == before + [s];
      if IdOf(s) !in seen {
        index := File(index, before, s);
        seen := seen + {IdOf(s)};
      }
    }
    assert symbols[..|symbols|] == symbols;
  }

  lemma KnownIdStep(before: seq<Symbol>, s: Symbol)
    ensures forall id :: KnownId(before + [s], id) <==> KnownId(before, id) || id == IdOf(s)
  {
    forall id
      ensures KnownId(before + [s], id) <==> KnownId(before, id) || id == IdOf(s)
    {
      assert (before + [s])[|before|] == s;
      if KnownId(before, id) {
        var i :| 0 <= i < |before| && IdOf(before[i]) == id;
        assert IdOf((before + [s])[i]) == id;
      }
    }
  }

  /** match_index_lookup: the indexed lookup answers as a scan of all symbols. */
  method MatchIndexLookup(r: Rules, index: Index, ghost symbols: seq<Symbol>, token: string)
    returns (found: seq<Symbol>)
    requires IsIndex(index, symbols)
    ensures found == if Linkable(r, token) then Candidates(symbols, MatchKey(token)) else []
  {
    assert At(index, MatchKey(token)) == Candidates(symbols, MatchKey(token));
    found := if Linkable(r, token) then At(index, MatchKey(token)) else [];
  }

  // ------------------------------------------------------------- keys, with the memo

  /** A mutable list of keys; the memo and the paragraph loop can hold the same one. */
  class KeyList {
    var items: seq<KeyWords>

    constructor (items: seq<KeyWords>)
      ensures this.items == items
    {
      this.items := items;
    }
  }

  /** A key is in the index exactly when some symbol answers to it. */
  lemma IndexedKey(index: Index, symbols: seq<Symbol>, k: KeyWords)
    requires IsIndex(index, symbols)
    ensures k in index <==> Candidates(symbols, k) != []
  {
    assert At(index, k) == Candidates(symbols, k);
  }

  method TextKeyList(r: Rules, index: Index, ghost symbols: seq<Symbol>, text: string) returns (list: KeyList)
    requires IsIndex(index, symbols)
    ensures fresh(list) && list.items == TextKeys(r, symbols, text)
  {
    var tokens := r.tokens(text);
    list := new KeyList([]);
    for i := 0 to |tokens|
      invariant fresh(list) && list.items == TextKeysOf(r, symbols, tokens[..i])
    {
      PrefixSnoc(tokens, i);
      var k := MatchKey(tokens[i]);
      IndexedKey(index, symbols, k);
      if Linkable(r, tokens[i]) && k != [] && k in index && k !in list.items {
        list.items := list.items + [k];
      }
    }
    assert tokens[..|tokens|] == tokens;
  }

  /** Adds the entity keys of a paragraph to its own list. */
  method AddEntityKeys(r: Rules, index: Index, ghost symbols: seq<Symbol>, list: KeyList, names: seq<string>)
    requires IsIndex(index, symbols)
    modifies list
    ensures list.items == AddEntities(r, symbols, old(list.items), names)
  {
    for i := 0 to |names|
      invariant list.items == AddEntities(r, symbols, old(list.items), names[..i])
    {
      PrefixSnoc(names, i);
      var k := MatchKey(names[i]);
      IndexedKey(index, symbols, k);
      if EntityLinkable(r, names[i]) && k != [] && k in index && k !in list.items {
        list.items := list.items + [k];
      }
    }
    assert names[..|names|] == names;
  }

  // ---------------------------------------------------------------- one paragraph

  method CollectStems(r: Rules, index: Index, ghost symbols: seq<Symbol>, docStems: set<string>, keys: seq<KeyWords>)
    returns (stems: set<string>)
    requires IsIndex(index, symbols)
    ensures stems == docStems + RareStems(r, symbols, keys)
  {
    stems := docStems;
    for i := 0 to |keys|
      invariant stems == docStems + RareStems(r, symbols, keys[..i])
    {
      PrefixSnoc(keys, i);
      var cs := At(index, keys[i]);
      assert cs == Candidates(symbols, keys[i]);
      if 0 < |Paths(cs)| <= 3 {
        stems := stems + CandidateStems(r, cs);
      }
    }
    assert keys[..|keys|] == keys;
  }

  method GateCandidates(r: Rules, df: nat, stems: set<string>, cs: seq<Symbol>) returns (kept: seq<Candidate>)
    ensures kept == Capped(Gate(r, df, stems, cs))
  {
    kept := [];
    for i := 0 to |cs|
      invariant kept == Gate(r, df, stems, cs[..i])
    {
      assert cs[..i + 1][..i] == cs[..i];
      var affine := Affine(r, stems, cs[i]);
      if df <= MAX_UNSCOPED_SYMBOL_DF || affine {
        kept := kept + [(Score(r.maths, df, cs[i].kind, affine), cs[i])];
      }
    }
    assert cs[..|cs|] == cs;
    kept := Capped(kept);
  }

  lemma {:induction false} BestConcat(a: seq<Candidate>, b: seq<Candidate>, n: nat)
    requires n < |b|
    ensures Best(a + b[..n + 1]) == PutBest(Best(a + b[..n]), b[n])
  {
    assert (a + b[..n + 1])[..|a| + n] == a + b[..n];
  }

  method KeepBest(best: Bests, ghost before: seq<Candidate>, kept: seq<Candidate>) returns (best': Bests)
    requires best == Best(before)
    ensures best' == Best(before + kept)
  {
    best' := best;
    assert before + kept[..0] == before;
    for j := 0 to |kept|
      invariant best' == Best(before + kept[..j])
    {
      BestConcat(before, kept, j);
      best' := PutBest(best', kept[j]);
    }
    assert kept[..|kept|] == kept;
  }

  method CollectBest(r: Rules, index: Index, ghost symbols: seq<Symbol>, stems: set<string>, keys: seq<KeyWords>)
    returns (best: Bests)
    requires IsIndex(index, symbols)
    ensures best == Best(AllCandidates(r, symbols, stems, keys))
  {
    best := EmptyDict();
    for i := 0 to |keys|
      invariant best == Best(AllCandidates(r, symbols, stems, keys[..i]))
    {
      PrefixSnoc(keys, i);
      var cs := At(index, keys[i]);
      assert cs == Candidates(symbols, keys[i]);
      var kept := GateCandidates(r, |Paths(cs)|, stems, cs);
      best := KeepBest(best, AllCandidates(r, symbols, stems, keys[..i]), kept);
    }
    assert keys[..|keys|] == keys;
  }

  // ---------------------------------------------------------------- the counters

  type Counts = map<(string, Identity), nat>

  ghost predicate CountsLinks(counts: Counts, results: seq<Scored>) {
    forall d, id :: (if (d, id) in counts then counts[(d, id)] else 0) == |LinksOf(results, d, id)|
  }

  method EmitLinks(results: seq<Scored>, counts: Counts, p: Paragraph, best: seq<Candidate>)
    returns (results': seq<Scored>, counts': Counts)
    requires CountsLinks(counts, results)
    ensures results' == Emit(results, p, best) && CountsLinks(counts', results')
  {
    results', counts' := results, counts;
    for i := 0 to |best|
      invariant results' == Emit(results, p, best[..i]) && CountsLinks(counts', results')
    {
      assert best[..i + 1][..i] == best[..i];
      var k := (p.docId, IdOf(best[i].1));
      var n := if k in counts' then counts'[k] else 0;
      assert n == |LinksOf(results', p.docId, IdOf(best[i].1))|;
      if n < MAX_PARAGRAPHS_PER_DOC_SYMBOL {
        var x := Scored(p, best[i].1, best[i].0);
        assert (results' + [x])[..|results'|] == results';
        counts' := counts'[k := n + 1];
        results' := results' + [x];
      }
    }
    assert best[..|best|] == best;
  }

  // ------------------------------------------------------------------- the loop

  ghost predicate MemoHolds(r: Rules, symbols: seq<Symbol>, memo: map<string, KeyList>)
    reads memo.Values
  {
    forall text :: text in memo ==> memo[text].items == TextKeys(r, symbols, text)
  }

  lemma {:induction false} RankSnoc(r: Rules, symbols: seq<Symbol>, mentions: Mentions,
      paragraphs: seq<Paragraph>, i: nat)
    requires i < |paragraphs|
    ensures ScoredPairs(r, symbols, mentions, paragraphs[..i + 1]) ==
      Emit(ScoredPairs(r, symbols, mentions, paragraphs[..i]), paragraphs[i],
           Values(ParagraphBest(r, symbols, mentions, paragraphs[i])))
  {
    RankIsValid(r, symbols, mentions, paragraphs[..i + 1]);
    assert Rank(r, symbols, mentions, paragraphs[..i + 1])[..i] == Rank(r, symbols, mentions, paragraphs[..i]);
  }

  lemma {:induction false} NoSymbolsNoKeys(r: Rules, mentions: Mentions, paragraphs: seq<Paragraph>)
    ensures ScoredPairs(r, [], mentions, paragraphs) == []
  {
    if paragraphs != [] {
      var n := |paragraphs| - 1;
      NoSymbolsNoKeys(r, mentions, paragraphs[..n]);
      RankSnoc(r, [], mentions, paragraphs, n);
      assert paragraphs[..n + 1] == paragraphs;
      NoTextKeys(r, r.tokens(paragraphs[n].text));
      NoEntityKeys(r, NamesAt(mentions, AnchorOfParagraph(paragraphs[n])));
    }
  }

  lemma {:induction false} NoTextKeys(r: Rules, tokens: seq<string>)
    ensures TextKeysOf(r, [], tokens) == []
  {
    if tokens != [] {
      NoTextKeys(r, tokens[..|tokens| - 1]);
    }
  }

  lemma {:induction false} NoEntityKeys(r: Rules, names: seq<string>)
    ensures AddEntities(r, [], [], names) == []
  {
    if names != [] {
      NoEntityKeys(r, names[..|names| - 1]);
    }
  }

  /** The keys of one paragraph, through the memo: the memo's list is copied before entity keys
      are added to it, so what the memo holds never changes. */
  method KeysThroughMemo(r: Rules, index: Index, ghost symbols: seq<Symbol>, mentions: Mentions, p: Paragraph,
      memo: map<string, KeyList>)
    returns (memo': map<string, KeyList>, keys: seq<KeyWords>)
    requires IsIndex(index, symbols) && MemoHolds(r, symbols, memo)
    ensures MemoHolds(r, symbols, memo')
    ensures forall t :: t in memo' ==> (t in memo && memo'[t] == memo[t]) || fresh(memo'[t])
    ensures forall t :: t in memo ==> t in memo' && memo'[t] == memo[t] && memo[t].items == old(memo[t].items)
    ensures keys == ParagraphKeys(r, symbols, mentions, p)
  {
    memo' := memo;
    var cached: KeyList;
    if p.text in memo {
      cached := memo[p.text];
    } else {
      cached := TextKeyList(r, index, symbols, p.text);
      memo' := memo[p.text := cached];
    }
    var names := NamesAt(mentions, AnchorOfParagraph(p));
    var list := cached;
    if names != [] {
      list := new KeyList(cached.items);
      AddEntityKeys(r, index, symbols, list, names);
    }
    keys := list.items;
  }

  /** compute_scored_pairs. */
  method ComputeScoredPairs(r: Rules, symbols: seq<Symbol>, mentions: Mentions, paragraphs: seq<Paragraph>)
    returns (results: seq<Scored>)
    ensures results == ScoredPairs(r, symbols, mentions, paragraphs)
  {
    if paragraphs == [] || symbols == [] {
      NoSymbolsNoKeys(r, mentions, paragraphs);
      return [];
    }
    var index := BuildMatchIndex(symbols);
    var memo: map<string, KeyList> := map[];
    var counts: Counts := map[];
    results := [];
    for i := 0 to |paragraphs|
      invariant forall t :: t in memo ==> fresh(memo[t])
      invariant MemoHolds(r, symbols, memo) && CountsLinks(counts, results)
      invariant results == ScoredPairs(r, symbols, mentions, paragraphs[..i])
    {
      var p := paragraphs[i];
      RankSnoc(r, symbols, mentions, paragraphs, i);
      var keys;
      memo, keys := KeysThroughMemo(r, index, symbols, mentions, p, memo);
      var stems := CollectStems(r, index, symbols, DocStems(r, symbols, p.docId), keys);
      var best := CollectBest(r, index, symbols, stems, keys);
      results, counts := EmitLinks(results, counts, p, Values(best));
    }
    assert paragraphs[..|paragraphs|] == paragraphs;
  }
}
