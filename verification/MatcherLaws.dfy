/** What the matcher promises: who is emitted, how often, and with which score. */
module MatcherLaws {
  import opened Common
  import opened Records
  import opened Build
  import opened Normalizers
  import opened Scoring
  import opened Sorting
  import opened Matcher

  // ------------------------------------------------- three paragraphs per link

  function LinkOf(x: Ranked, docId: string, id: Identity): seq<Scored> {
    if x.paragraph.docId == docId && id in x.best.at
    then [Scored(x.paragraph, x.best.at[id].1, x.best.at[id].0)] else []
  }

  /** All paragraphs of a document that qualify for a symbol, in reading order. */
  function Qualifying(rs: seq<Ranked>, docId: string, id: Identity): seq<Scored> {
    if rs == [] then [] else Qualifying(rs[..|rs| - 1], docId, id) + LinkOf(rs[|rs| - 1], docId, id)
  }

  ghost predicate DistinctIds(best: seq<Candidate>) {
    forall i, j :: 0 <= i < j < |best| ==> IdOf(best[i].1) != IdOf(best[j].1)
  }

  lemma LinksOfStep(results: seq<Scored>, x: Scored, docId: string, id: Identity)
    ensures LinksOf(results + [x], docId, id) ==
      if SameLink(x, docId, id) then LinksOf(results, docId, id) + [x] else LinksOf(results, docId, id)
  {
    assert (results + [x])[..|results|] == results;
  }

  lemma {:induction false} EmitOther(results: seq<Scored>, p: Paragraph, best: seq<Candidate>, docId: string,
      id: Identity)
    requires docId != p.docId || forall i :: 0 <= i < |best| ==> IdOf(best[i].1) != id
    ensures LinksOf(Emit(results, p, best), docId, id) == LinksOf(results, docId, id)
  {
    if best != [] {
      var n := |best| - 1;
      EmitOther(results, p, best[..n], docId, id);
      LinksOfStep(Emit(results, p, best[..n]), Scored(p, best[n].1, best[n].0), docId, id);
    }
  }

  lemma {:induction false} EmitOwn(results: seq<Scored>, p: Paragraph, best: seq<Candidate>, i: nat)
    requires i < |best| && DistinctIds(best)
    ensures var id, before := IdOf(best[i].1), LinksOf(results, p.docId, IdOf(best[i].1));
      LinksOf(Emit(results, p, best), p.docId, id) ==
      if |before| >= 3 then before else before + [Scored(p, best[i].1, best[i].0)]
  {
    var n := |best| - 1;
    var id := IdOf(best[i].1);
    if i < n {
      EmitOwn(results, p, best[..n], i);
    } else {
      EmitOther(results, p, best[..n], p.docId, id);
    }
    LinksOfStep(Emit(results, p, best[..n]), Scored(p, best[n].1, best[n].0), p.docId, id);
  }

  lemma ValuesDistinct(d: Bests)
    requires ValidDict(d) && Labelled(d)
    ensures DistinctIds(Values(d))
    ensures forall i :: 0 <= i < |d.keys| ==> IdOf(Values(d)[i].1) == d.keys[i]
  {
  }

  /** One more paragraph adds its link, unless there are three already. */
  lemma EmitStep(results: seq<Scored>, x: Ranked, docId: string, id: Identity)
    requires ValidDict(x.best) && Labelled(x.best)
    ensures var before := LinksOf(results, docId, id);
      LinksOf(Emit(results, x.paragraph, Values(x.best)), docId, id) ==
      if |before| >= 3 then before else before + LinkOf(x, docId, id)
  {
    ValuesDistinct(x.best);
    if docId == x.paragraph.docId && id in x.best.at {
      var i := KeyPosition(x.best, id);
      EmitOwn(results, x.paragraph, Values(x.best), i);
    } else {
      EmitOther(results, x.paragraph, Values(x.best), docId, id);
    }
  }

  /** Each document keeps, for each symbol, exactly its first three qualifying paragraphs. */
  lemma {:induction false} FirstThreeParagraphs(rs: seq<Ranked>, docId: string, id: Identity)
    requires ValidRanking(rs)
    ensures LinksOf(EmitAll(rs), docId, id) == FirstOf(Qualifying(rs, docId, id), MAX_PARAGRAPHS_PER_DOC_SYMBOL)
  {
    if rs != [] {
      FirstThreeParagraphs(rs[..|rs| - 1], docId, id);
      EmitStep(EmitAll(rs[..|rs| - 1]), rs[|rs| - 1], docId, id);
    }
  }

  lemma {:induction false} LinksOfMeans(results: seq<Scored>, x: Scored, docId: string, id: Identity)
    ensures x in LinksOf(results, docId, id) <==> x in results && SameLink(x, docId, id)
  {
    if results != [] {
      LinksOfMeans(results[..|results| - 1], x, docId, id);
      assert results == results[..|results| - 1] + [results[|results| - 1]];
    }
  }

  /** A result is emitted exactly when it is among the first three of its document and symbol. */
  lemma EmittedExactly(rs: seq<Ranked>, x: Scored)
    requires ValidRanking(rs)
    ensures x in EmitAll(rs) <==>
      x in FirstOf(Qualifying(rs, x.paragraph.docId, IdOf(x.symbol)), MAX_PARAGRAPHS_PER_DOC_SYMBOL)
  {
    FirstThreeParagraphs(rs, x.paragraph.docId, IdOf(x.symbol));
    LinksOfMeans(EmitAll(rs), x, x.paragraph.docId, IdOf(x.symbol));
  }

  // --------------------------------------------------------------- no repetition

  ghost predicate NoRepeats(results: seq<Scored>) {
    forall i, j :: 0 <= i < j < |results| ==>
      AnchorOfParagraph(results[i].paragraph) != AnchorOfParagraph(results[j].paragraph)
      || IdOf(results[i].symbol) != IdOf(results[j].symbol)
  }

  ghost predicate DistinctAnchors(rs: seq<Ranked>) {
    forall i, j :: 0 <= i < j < |rs| ==> AnchorOfParagraph(rs[i].paragraph) != AnchorOfParagraph(rs[j].paragraph)
  }

  ghost predicate DistinctParagraphs(results: seq<Scored>) {
    forall i, j :: 0 <= i < j < |results| ==>
      AnchorOfParagraph(results[i].paragraph) != AnchorOfParagraph(results[j].paragraph)
  }

  lemma {:induction false} QualifyingFrom(rs: seq<Ranked>, docId: string, id: Identity, k: nat)
    requires k < |Qualifying(rs, docId, id)|
    ensures exists i :: 0 <= i < |rs| && rs[i].paragraph == Qualifying(rs, docId, id)[k].paragraph
  {
    var n := |rs| - 1;
    if k < |Qualifying(rs[..n], docId, id)| {
      QualifyingFrom(rs[..n], docId, id, k);
      var i :| 0 <= i < n && rs[..n][i].paragraph == Qualifying(rs[..n], docId, id)[k].paragraph;
      assert rs[i] == rs[..n][i];
    } else {
      assert rs[n].paragraph == Qualifying(rs, docId, id)[k].paragraph;
    }
  }

  lemma {:induction false} QualifyingDistinct(rs: seq<Ranked>, docId: string, id: Identity)
    requires DistinctAnchors(rs)
    ensures DistinctParagraphs(Qualifying(rs, docId, id))
  {
    if rs != [] {
      var n := |rs| - 1;
      var init := Qualifying(rs[..n], docId, id);
      QualifyingDistinct(rs[..n], docId, id);
      forall k | 0 <= k < |init|
        ensures AnchorOfParagraph(init[k].paragraph) != AnchorOfParagraph(rs[n].paragraph)
      {
        QualifyingFrom(rs[..n], docId, id, k);
      }
    }
  }

  ghost predicate InOrder(links: seq<Scored>, x: Scored, y: Scored) {
    exists a, b :: 0 <= a < b < |links| && links[a] == x && links[b] == y
  }

  lemma {:induction false} LinksOfKeepsPairs(results: seq<Scored>, i: nat, j: nat, docId: string, id: Identity)
    requires i < j < |results| && SameLink(results[i], docId, id) && SameLink(results[j], docId, id)
    ensures InOrder(LinksOf(results, docId, id), results[i], results[j])
  {
    var n := |results| - 1;
    var init, all := LinksOf(results[..n], docId, id), LinksOf(results, docId, id);
    if j < n {
      LinksOfKeepsPairs(results[..n], i, j, docId, id);
      var a, b :| 0 <= a < b < |init| && init[a] == results[i] && init[b] == results[j];
      assert all[a] == results[i] && all[b] == results[j];
    } else {
      LinksOfMeans(results[..n], results[i], docId, id);
      assert results[..n][i] == results[i];
      var a :| 0 <= a < |init| && init[a] == results[i];
      assert all[a] == results[i] && all[|init|] == results[j];
    }
  }

  /** No paragraph is linked to a symbol twice. */
  lemma EmittedOnce(rs: seq<Ranked>)
    requires ValidRanking(rs) && DistinctAnchors(rs)
    ensures NoRepeats(EmitAll(rs))
  {
    var results := EmitAll(rs);
    forall i, j | 0 <= i < j < |results|
      ensures AnchorOfParagraph(results[i].paragraph) != AnchorOfParagraph(results[j].paragraph)
        || IdOf(results[i].symbol) != IdOf(results[j].symbol)
    {
      var docId, id := results[i].paragraph.docId, IdOf(results[i].symbol);
      if SameLink(results[j], docId, id) {
        FirstThreeParagraphs(rs, docId, id);
        QualifyingDistinct(rs, docId, id);
        LinksOfKeepsPairs(results, i, j, docId, id);
      }
    }
  }

  // ------------------------------------------------------------- ten per key

  lemma BetterIsOrder()
    ensures WeakOrder(Better)
  {
    forall a: Candidate, b: Candidate
      ensures Better(a, b) ==> !Better(b, a)
    {
      TextAsymmetric(a.1.path, b.1.path);
      TextAsymmetric(b.1.path, a.1.path);
      TextAsymmetric(a.1.name, b.1.name);
    }
    forall a: Candidate, b: Candidate, c: Candidate
      ensures Better(a, c) ==> Better(a, b) || Better(b, c)
    {
      TextComparable(a.1.path, b.1.path, c.1.path);
      TextComparable(a.1.name, b.1.name, c.1.name);
      TextTotal(a.1.path, b.1.path);
      TextTotal(b.1.path, c.1.path);
    }
  }

  lemma {:induction false} TextTotal(a: string, b: string)
    ensures a == b || TextBefore(a, b) || TextBefore(b, a)
  {
    if a != "" && b != "" {
      TextTotal(a[1..], b[1..]);
      assert a == [a[0]] + a[1..] && b == [b[0]] + b[1..];
    }
  }

  /** A key contributes at most ten candidates, and none it leaves out is better than one it keeps. */
  lemma TenBestPerKey(cs: seq<Candidate>)
    ensures |Capped(cs)| <= MAX_CANDIDATES_PER_TOKEN
    ensures |cs| <= MAX_CANDIDATES_PER_TOKEN ==> Capped(cs) == cs
    ensures forall c :: c in Capped(cs) ==> c in cs
    ensures forall c, d :: c in cs && c !in Capped(cs) && d in Capped(cs) ==> !Better(c, d)
  {
    if |cs| > MAX_CANDIDATES_PER_TOKEN {
      BetterIsOrder();
      SortPermutes(cs, Better);
      PermutationElements(cs, Sort(cs, Better));
      CutKeepsFirst(cs, Better, MAX_CANDIDATES_PER_TOKEN);
    }
  }

  // ---------------------------------------------------------------------- scores

  lemma {:induction false} GateMeans(r: Rules, df: nat, stems: set<string>, cs: seq<Symbol>, c: Candidate)
    requires c in Gate(r, df, stems, cs)
    ensures c.1 in cs && c.0 == Score(r.maths, df, c.1.kind, Affine(r, stems, c.1))
    ensures df > MAX_UNSCOPED_SYMBOL_DF ==> Affine(r, stems, c.1)
  {
    var n := |cs| - 1;
    if c in Gate(r, df, stems, cs[..n]) {
      GateMeans(r, df, stems, cs[..n], c);
    }
  }

  lemma {:induction false} AllCandidatesMeans(r: Rules, symbols: seq<Symbol>, stems: set<string>,
      keys: seq<KeyWords>, c: Candidate)
    ensures c in AllCandidates(r, symbols, stems, keys) <==>
      exists key :: key in keys && c in KeyCandidates(r, symbols, stems, key)
  {
    if keys != [] {
      var n := |keys| - 1;
      AllCandidatesMeans(r, symbols, stems, keys[..n], c);
      InConcat(AllCandidates(r, symbols, stems, keys[..n]), KeyCandidates(r, symbols, stems, keys[n]), c);
      forall key
        ensures key in keys <==> key in keys[..n] || key == keys[n]
      {
        InSnoc(keys, key);
      }
    }
  }

  lemma InConcat<T>(a: seq<T>, b: seq<T>, x: T)
    ensures x in a + b <==> x in a || x in b
  {
  }

  function StemsFor(r: Rules, symbols: seq<Symbol>, mentions: Mentions, p: Paragraph): set<string> {
    ActiveStems(r, symbols, p.docId, ParagraphKeys(r, symbols, mentions, p))
  }

  /** A key of the paragraph kept this candidate after gate and cap. */
  ghost predicate Retained(r: Rules, symbols: seq<Symbol>, mentions: Mentions, p: Paragraph, key: KeyWords,
      c: Candidate) {
    && key in ParagraphKeys(r, symbols, mentions, p)
    && c in KeyCandidates(r, symbols, StemsFor(r, symbols, mentions, p), key)
  }

  ghost predicate RetainedInScope(r: Rules, symbols: seq<Symbol>, mentions: Mentions, p: Paragraph, key: KeyWords,
      c: Candidate) {
    && Retained(r, symbols, mentions, p, key, c)
    && (FileCount(symbols, key) > MAX_UNSCOPED_SYMBOL_DF ==> Affine(r, StemsFor(r, symbols, mentions, p), c.1))
  }

  lemma RetainedScore(r: Rules, symbols: seq<Symbol>, mentions: Mentions, p: Paragraph, key: KeyWords, c: Candidate)
    requires Sane(r.maths) && Retained(r, symbols, mentions, p, key, c)
    ensures 0.0 < c.0 <= 1.0 && (c.0 == 1.0 <==> FileCount(symbols, key) <= 2)
    ensures FileCount(symbols, key) > MAX_UNSCOPED_SYMBOL_DF ==> Affine(r, StemsFor(r, symbols, mentions, p), c.1)
  {
    var stems, df := StemsFor(r, symbols, mentions, p), FileCount(symbols, key);
    TenBestPerKey(Gate(r, df, stems, Candidates(symbols, key)));
    GateMeans(r, df, stems, Candidates(symbols, key), c);
    ScoreRange(r.maths, df, c.1.kind, Affine(r, stems, c.1));
  }

  lemma BestIsRetained(r: Rules, symbols: seq<Symbol>, mentions: Mentions, p: Paragraph, id: Identity)
    requires id in ParagraphBest(r, symbols, mentions, p).at
    ensures exists key :: Retained(r, symbols, mentions, p, key, ParagraphBest(r, symbols, mentions, p).at[id])
  {
    var keys, stems := ParagraphKeys(r, symbols, mentions, p), StemsFor(r, symbols, mentions, p);
    var cs := AllCandidates(r, symbols, stems, keys);
    BestIsCandidate(cs, id);
    var c := Best(cs).at[id];
    AllCandidatesMeans(r, symbols, stems, keys, c);
    var i :| 0 <= i < |keys| && c in KeyCandidates(r, symbols, stems, keys[i]);
    assert Retained(r, symbols, mentions, p, keys[i], c);
  }

  lemma RetainedIsBeaten(r: Rules, symbols: seq<Symbol>, mentions: Mentions, p: Paragraph, key: KeyWords, c: Candidate)
    requires Retained(r, symbols, mentions, p, key, c)
    ensures IdOf(c.1) in ParagraphBest(r, symbols, mentions, p).at
    ensures c.0 <= ParagraphBest(r, symbols, mentions, p).at[IdOf(c.1)].0
  {
    var keys, stems := ParagraphKeys(r, symbols, mentions, p), StemsFor(r, symbols, mentions, p);
    var cs := AllCandidates(r, symbols, stems, keys);
    AllCandidatesMeans(r, symbols, stems, keys, c);
    var i :| 0 <= i < |cs| && cs[i] == c;
    BestIsHighest(cs, i);
  }

  /** The score of a link lies in (0, 1]; it is 1 exactly when some key of the paragraph that is
      defined in at most two files kept the symbol; and a key in more than eight files keeps
      only symbols of files the paragraph speaks of. */
  lemma LinkScore(r: Rules, symbols: seq<Symbol>, mentions: Mentions, p: Paragraph, id: Identity)
    requires Sane(r.maths) && id in ParagraphBest(r, symbols, mentions, p).at
    ensures var c := ParagraphBest(r, symbols, mentions, p).at[id];
      && 0.0 < c.0 <= 1.0
      && (exists key :: RetainedInScope(r, symbols, mentions, p, key, c))
      && (c.0 == 1.0 <==>
          exists key, d :: Retained(r, symbols, mentions, p, key, d) && IdOf(d.1) == id && FileCount(symbols, key) <= 2)
  {
    var c := ParagraphBest(r, symbols, mentions, p).at[id];
    BestIsRetained(r, symbols, mentions, p, id);
    var key :| Retained(r, symbols, mentions, p, key, c);
    RetainedScore(r, symbols, mentions, p, key, c);
    assert RetainedInScope(r, symbols, mentions, p, key, c);
    BestLabelled(AllCandidates(r, symbols, StemsFor(r, symbols, mentions, p), ParagraphKeys(r, symbols, mentions, p)));
    forall key', d | Retained(r, symbols, mentions, p, key', d) && IdOf(d.1) == id && FileCount(symbols, key') <= 2
      ensures c.0 == 1.0
    {
      RetainedScore(r, symbols, mentions, p, key', d);
      RetainedIsBeaten(r, symbols, mentions, p, key', d);
    }
  }

  // --------------------------------------- only the set of keys of a paragraph matters

  /** The first symbol read with an identity. */
  function FirstWith(symbols: seq<Symbol>, id: Identity): Option<Symbol> {
    if symbols == [] then None
    else
      var n := |symbols| - 1;
      var before := FirstWith(symbols[..n], id);
      if before.None? && IdOf(symbols[n]) == id then Some(symbols[n]) else before
  }

  lemma {:induction false} FirstWithKnown(symbols: seq<Symbol>, id: Identity)
    ensures FirstWith(symbols, id).Some? <==> KnownId(symbols, id)
  {
    if symbols != [] {
      var n := |symbols| - 1;
      FirstWithKnown(symbols[..n], id);
      if KnownId(symbols[..n], id) {
        var i :| 0 <= i < n && IdOf(symbols[..n][i]) == id;
        assert IdOf(symbols[i]) == id;
      }
      if KnownId(symbols, id) && IdOf(symbols[n]) != id {
        var i :| 0 <= i < |symbols| && IdOf(symbols[i]) == id;
        assert IdOf(symbols[..n][i]) == id;
      }
    }
  }

  /** An identity has one candidate symbol, whatever key found it. */
  lemma {:induction false} CandidateIsFirst(symbols: seq<Symbol>, key: KeyWords, s: Symbol)
    requires s in Candidates(symbols, key)
    ensures FirstWith(symbols, IdOf(s)) == Some(s)
  {
    var n := |symbols| - 1;
    if s in Candidates(symbols[..n], key) {
      CandidateIsFirst(symbols[..n], key, s);
    } else {
      FirstWithKnown(symbols[..n], IdOf(s));
    }
  }

  lemma RetainedSymbol(r: Rules, symbols: seq<Symbol>, mentions: Mentions, p: Paragraph, id: Identity)
    requires id in ParagraphBest(r, symbols, mentions, p).at
    ensures FirstWith(symbols, id) == Some(ParagraphBest(r, symbols, mentions, p).at[id].1)
  {
    var c := ParagraphBest(r, symbols, mentions, p).at[id];
    var stems := StemsFor(r, symbols, mentions, p);
    BestIsRetained(r, symbols, mentions, p, id);
    var key :| Retained(r, symbols, mentions, p, key, c);
    var gated := Gate(r, FileCount(symbols, key), stems, Candidates(symbols, key));
    TenBestPerKey(gated);
    GateMeans(r, FileCount(symbols, key), stems, Candidates(symbols, key), c);
    CandidateIsFirst(symbols, key, c.1);
    BestLabelled(AllCandidates(r, symbols, stems, ParagraphKeys(r, symbols, mentions, p)));
  }

  lemma {:induction false} RareStemsMeans(r: Rules, symbols: seq<Symbol>, keys: seq<KeyWords>, stem: string)
    ensures stem in RareStems(r, symbols, keys) <==>
      exists key :: key in keys && stem in KeyStems(r, symbols, key)
  {
    if keys != [] {
      var n := |keys| - 1;
      RareStemsMeans(r, symbols, keys[..n], stem);
      forall key
        ensures key in keys <==> key in keys[..n] || key == keys[n]
      {
        InSnoc(keys, key);
      }
    }
  }

  lemma SameKeysSameStems(r: Rules, symbols: seq<Symbol>, docId: string, a: seq<KeyWords>, b: seq<KeyWords>)
    requires Elements(a) == Elements(b)
    ensures ActiveStems(r, symbols, docId, a) == ActiveStems(r, symbols, docId, b)
  {
    forall stem
      ensures stem in RareStems(r, symbols, a) <==> stem in RareStems(r, symbols, b)
    {
      RareStemsMeans(r, symbols, a, stem);
      RareStemsMeans(r, symbols, b, stem);
      assert forall i :: 0 <= i < |a| ==> a[i] in Elements(b);
      assert forall i :: 0 <= i < |b| ==> b[i] in Elements(a);
    }
  }

  /** Two readings of the mentions that give a paragraph the same set of keys. */
  ghost predicate SameKeys(r: Rules, symbols: seq<Symbol>, m: Mentions, m': Mentions, p: Paragraph) {
    Elements(ParagraphKeys(r, symbols, m, p)) == Elements(ParagraphKeys(r, symbols, m', p))
  }

  lemma RetainedTransfers(r: Rules, symbols: seq<Symbol>, m: Mentions, m': Mentions, p: Paragraph, key: KeyWords,
      c: Candidate)
    requires SameKeys(r, symbols, m, m', p) && Retained(r, symbols, m, p, key, c)
    ensures Retained(r, symbols, m', p, key, c)
  {
    SameKeysSameStems(r, symbols, p.docId, ParagraphKeys(r, symbols, m, p), ParagraphKeys(r, symbols, m', p));
    assert key in Elements(ParagraphKeys(r, symbols, m, p));
  }

  lemma BestTransfers(r: Rules, symbols: seq<Symbol>, m: Mentions, m': Mentions, p: Paragraph, id: Identity)
    requires SameKeys(r, symbols, m, m', p) && id in ParagraphBest(r, symbols, m, p).at
    ensures id in ParagraphBest(r, symbols, m', p).at
    ensures ParagraphBest(r, symbols, m, p).at[id].0 <= ParagraphBest(r, symbols, m', p).at[id].0
  {
    var c := ParagraphBest(r, symbols, m, p).at[id];
    BestLabelled(AllCandidates(r, symbols, StemsFor(r, symbols, m, p), ParagraphKeys(r, symbols, m, p)));
    BestIsRetained(r, symbols, m, p, id);
    var key :| Retained(r, symbols, m, p, key, c);
    RetainedTransfers(r, symbols, m, m', p, key, c);
    RetainedIsBeaten(r, symbols, m', p, key, c);
  }

  lemma SameKeysSameBest(r: Rules, symbols: seq<Symbol>, m: Mentions, m': Mentions, p: Paragraph)
    requires SameKeys(r, symbols, m, m', p)
    ensures ParagraphBest(r, symbols, m, p).at == ParagraphBest(r, symbols, m', p).at
  {
    var d, d' := ParagraphBest(r, symbols, m, p), ParagraphBest(r, symbols, m', p);
    forall id: Identity
      ensures id in d.at <==> id in d'.at
      ensures id in d.at && id in d'.at ==> d.at[id] == d'.at[id]
    {
      if id in d.at {
        BestTransfers(r, symbols, m, m', p, id);
        RetainedSymbol(r, symbols, m, p, id);
      }
      if id in d'.at {
        BestTransfers(r, symbols, m', m, p, id);
        RetainedSymbol(r, symbols, m', p, id);
      }
    }
  }

  lemma {:induction false} SameBestSameQualifying(a: seq<Ranked>, b: seq<Ranked>, docId: string, id: Identity)
    requires |a| == |b| && forall i :: 0 <= i < |a| ==> a[i].paragraph == b[i].paragraph && a[i].best.at == b[i].best.at
    ensures Qualifying(a, docId, id) == Qualifying(b, docId, id)
  {
    if a != [] {
      SameBestSameQualifying(a[..|a| - 1], b[..|b| - 1], docId, id);
    }
  }

  /** The order in which mentions arrive, and mentions that match no symbol, do not change the
      set of links. */
  lemma OnlyTheKeySetMatters(r: Rules, symbols: seq<Symbol>, m: Mentions, m': Mentions, paragraphs: seq<Paragraph>)
    requires forall i :: 0 <= i < |paragraphs| ==> SameKeys(r, symbols, m, m', paragraphs[i])
    ensures Elements(ScoredPairs(r, symbols, m, paragraphs)) == Elements(ScoredPairs(r, symbols, m', paragraphs))
  {
    var a, b := Rank(r, symbols, m, paragraphs), Rank(r, symbols, m', paragraphs);
    RankIsValid(r, symbols, m, paragraphs);
    RankIsValid(r, symbols, m', paragraphs);
    forall i | 0 <= i < |paragraphs|
      ensures a[i].best.at == b[i].best.at
    {
      SameKeysSameBest(r, symbols, m, m', paragraphs[i]);
    }
    forall x
      ensures x in EmitAll(a) <==> x in EmitAll(b)
    {
      EmittedExactly(a, x);
      EmittedExactly(b, x);
      SameBestSameQualifying(a, b, x.paragraph.docId, IdOf(x.symbol));
    }
  }
}
