/** What compute_scored_pairs computes (link_engine.py), stated without index, memo or counters:
    every definition scans all symbols. */
module Matcher {
  import opened Common
  import opened Json
  import opened Records
  import opened Build
  import opened Normalizers
  import opened Scoring
  import opened Sorting

  type KeyWords = seq<string>

  datatype Symbol = Symbol(name: string, qualified: string, path: string, start: Option<int>, end: Option<int>,
    kind: Kind)
  datatype Paragraph = Paragraph(docId: string, paraId: Json, text: string)
  datatype Scored = Scored(paragraph: Paragraph, symbol: Symbol, score: real)

  const MIN_TOKEN_LENGTH := 4
  const MAX_CANDIDATES_PER_TOKEN := 10
  const MAX_PARAGRAPHS_PER_DOC_SYMBOL := 3

  /** Stop words, generic file stems and the text functions taken as given: tokens of a text,
      the cleaned stem of a path, and whether a stem occurs in a document id. */
  datatype Rules = Rules(
    stop: set<string>,
    generic: set<string>,
    tokens: string -> seq<string>,
    stem: string -> string,
    inDoc: (string, string) -> bool,
    maths: Maths)

  function IdOf(s: Symbol): Identity { Identity(s.path, s.name, s.start, s.end, s.kind) }

  function AddNew<T(==)>(s: seq<T>, x: T): seq<T> { if x in s then s else s + [x] }

  // ----------------------------------------------------------------- match keys

  /** The non-empty parts of a dotted name. */
  function DotParts(text: string, part: string): seq<string> {
    if text == "" then (if part == "" then [] else [part])
    else if text[0] == '.' then (if part == "" then [] else [part]) + DotParts(text[1..], "")
    else DotParts(text[1..], part + [text[0]])
  }

  /** qualified_segments: the full dotted name and its suffixes, longest first. */
  function Segments(qualified: string): (r: seq<string>) {
    var parts := DotParts(qualified, "");
    seq(|parts|, i requires 0 <= i < |parts| => Join(parts[i..], '.'))
  }

  function AddKey(keys: seq<KeyWords>, k: KeyWords): seq<KeyWords> { if k == [] then keys else AddNew(keys, k) }

  function AddKeys(keys: seq<KeyWords>, texts: seq<string>): seq<KeyWords> {
    if texts == [] then keys else AddKey(AddKeys(keys, texts[..|texts| - 1]), MatchKey(texts[|texts| - 1]))
  }

  /** symbol_match_keys: the short name first, then the segments. */
  function SymbolKeys(s: Symbol): seq<KeyWords> { AddKeys([], [s.name] + Segments(s.qualified)) }

  predicate KnownId(symbols: seq<Symbol>, id: Identity) { exists i :: 0 <= i < |symbols| && IdOf(symbols[i]) == id }

  /** The symbols a key stands for: the first one of each identity, in reading order. */
  function Candidates(symbols: seq<Symbol>, key: KeyWords): seq<Symbol> {
    if symbols == [] then []
    else
      var init, s := symbols[..|symbols| - 1], symbols[|symbols| - 1];
      if !KnownId(init, IdOf(s)) && key in SymbolKeys(s) then Candidates(init, key) + [s] else Candidates(init, key)
  }

  /** In how many files a key is defined. */
  function FileCount(symbols: seq<Symbol>, key: KeyWords): nat { |Paths(Candidates(symbols, key))| }

  function Paths(cs: seq<Symbol>): set<string> { set i | 0 <= i < |cs| :: cs[i].path }

  // ------------------------------------------------------------ keys of a paragraph

  predicate Linkable(r: Rules, token: string) {
    var key := MatchKey(token);
    && key != [] && |Concat(key)| >= MIN_TOKEN_LENGTH
    && (exists i :: 0 <= i < |Concat(key)| && !IsDigit(Concat(key)[i]))
    && (exists i :: 0 <= i < |key| && key[i] !in r.stop)
  }

  predicate IsSpace(c: char) { c in " \t\n\r" || c as int == 11 || c as int == 12 }

  /** An entity name must also look like an identifier. */
  predicate EntityLinkable(r: Rules, name: string) {
    && name != "" && !(exists i :: 0 <= i < |name| && IsSpace(name[i]))
    && Linkable(r, name)
    && ((exists i :: 0 <= i < |name| && (name[i] in "_./-" || IsDigit(name[i])))
        || (exists i :: 1 <= i < |name| && IsUpper(name[i])))
  }

  function AddToken(symbols: seq<Symbol>, keys: seq<KeyWords>, token: string, ok: bool): seq<KeyWords> {
    var k := MatchKey(token);
    if ok && k != [] && Candidates(symbols, k) != [] then AddNew(keys, k) else keys
  }

  function TextKeysOf(r: Rules, symbols: seq<Symbol>, tokens: seq<string>): seq<KeyWords> {
    if tokens == [] then []
    else
      var token := tokens[|tokens| - 1];
      AddToken(symbols, TextKeysOf(r, symbols, tokens[..|tokens| - 1]), token, Linkable(r, token))
  }

  function TextKeys(r: Rules, symbols: seq<Symbol>, text: string): seq<KeyWords> {
    TextKeysOf(r, symbols, r.tokens(text))
  }

  function AddEntities(r: Rules, symbols: seq<Symbol>, keys: seq<KeyWords>, names: seq<string>): seq<KeyWords> {
    if names == [] then keys
    else
      var name := names[|names| - 1];
      AddToken(symbols, AddEntities(r, symbols, keys, names[..|names| - 1]), name, EntityLinkable(r, name))
  }

  type Mentions = map<Anchor, seq<string>>

  function NamesAt(mentions: Mentions, a: Anchor): seq<string> { if a in mentions then mentions[a] else [] }

  function AnchorOfParagraph(p: Paragraph): Anchor { Anchor(p.docId, p.paraId) }

  function ParagraphKeys(r: Rules, symbols: seq<Symbol>, mentions: Mentions, p: Paragraph): seq<KeyWords> {
    AddEntities(r, symbols, TextKeys(r, symbols, p.text), NamesAt(mentions, AnchorOfParagraph(p)))
  }

  // ------------------------------------------------------------- gate, score and cap

  predicate Meaningful(r: Rules, stem: string) { |stem| >= 4 && stem !in r.generic }

  /** The file stems a paragraph speaks of: those in its document's id, and those of the
      symbols of its rare keys. */
  function ActiveStems(r: Rules, symbols: seq<Symbol>, docId: string, keys: seq<KeyWords>): set<string> {
    DocStems(r, symbols, docId) + RareStems(r, symbols, keys)
  }

  function DocStems(r: Rules, symbols: seq<Symbol>, docId: string): set<string> {
    set i | 0 <= i < |symbols| && Meaningful(r, r.stem(symbols[i].path)) && r.inDoc(r.stem(symbols[i].path), docId)
      :: r.stem(symbols[i].path)
  }

  function KeyStems(r: Rules, symbols: seq<Symbol>, key: KeyWords): set<string> {
    if 0 < FileCount(symbols, key) <= 3 then CandidateStems(r, Candidates(symbols, key)) else {}
  }

  function CandidateStems(r: Rules, cs: seq<Symbol>): set<string> {
    set i | 0 <= i < |cs| && Meaningful(r, r.stem(cs[i].path)) :: r.stem(cs[i].path)
  }

  function RareStems(r: Rules, symbols: seq<Symbol>, keys: seq<KeyWords>): set<string> {
    if keys == [] then {} else RareStems(r, symbols, keys[..|keys| - 1]) + KeyStems(r, symbols, keys[|keys| - 1])
  }

  predicate Affine(r: Rules, stems: set<string>, s: Symbol) { r.stem(s.path) != "" && r.stem(s.path) in stems }

  type Candidate = (real, Symbol)

  function Gate(r: Rules, df: nat, stems: set<string>, cs: seq<Symbol>): seq<Candidate> {
    if cs == [] then []
    else
      var init, s := Gate(r, df, stems, cs[..|cs| - 1]), cs[|cs| - 1];
      if df > MAX_UNSCOPED_SYMBOL_DF && !Affine(r, stems, s) then init
      else init + [(Score(r.maths, df, s.kind, Affine(r, stems, s)), s)]
  }

  /** Best score first, then path, then name. */
  predicate Better(a: Candidate, b: Candidate) {
    || a.0 > b.0
    || (a.0 == b.0 && TextBefore(a.1.path, b.1.path))
    || (a.0 == b.0 && a.1.path == b.1.path && TextBefore(a.1.name, b.1.name))
  }

  function Capped(cs: seq<Candidate>): seq<Candidate> {
    if |cs| > MAX_CANDIDATES_PER_TOKEN then FirstOf(Sort(cs, Better), MAX_CANDIDATES_PER_TOKEN) else cs
  }

  function KeyCandidates(r: Rules, symbols: seq<Symbol>, stems: set<string>, key: KeyWords): seq<Candidate> {
    Capped(Gate(r, FileCount(symbols, key), stems, Candidates(symbols, key)))
  }

  function AllCandidates(r: Rules, symbols: seq<Symbol>, stems: set<string>, keys: seq<KeyWords>): seq<Candidate> {
    if keys == [] then []
    else AllCandidates(r, symbols, stems, keys[..|keys| - 1]) + KeyCandidates(r, symbols, stems, keys[|keys| - 1])
  }

  // -------------------------------------------------------- best candidate per symbol

  type Bests = Dict<Identity, Candidate>

  function PutBest(d: Bests, c: Candidate): (r: Bests)
    ensures ValidDict(d) ==> ValidDict(r)
  {
    var id := IdOf(c.1);
    if id !in d.at || c.0 > d.at[id].0 then Put(d, id, c) else d
  }

  function Best(cs: seq<Candidate>): (d: Bests)
    ensures ValidDict(d)
  {
    if cs == [] then EmptyDict() else PutBest(Best(cs[..|cs| - 1]), cs[|cs| - 1])
  }

  function ParagraphBest(r: Rules, symbols: seq<Symbol>, mentions: Mentions, p: Paragraph): (d: Bests)
    ensures ValidDict(d)
  {
    var keys := ParagraphKeys(r, symbols, mentions, p);
    Best(AllCandidates(r, symbols, ActiveStems(r, symbols, p.docId, keys), keys))
  }

  // ------------------------------------------------------------------ emission

  datatype Ranked = Ranked(paragraph: Paragraph, best: Bests)

  predicate SameLink(x: Scored, docId: string, id: Identity) { x.paragraph.docId == docId && IdOf(x.symbol) == id }

  /** The results that link one document to one symbol. */
  function LinksOf(results: seq<Scored>, docId: string, id: Identity): seq<Scored> {
    if results == [] then []
    else
      var init, x := LinksOf(results[..|results| - 1], docId, id), results[|results| - 1];
      if SameLink(x, docId, id) then init + [x] else init
  }

  /** A paragraph's links, unless its document already has three of the same. */
  function Emit(results: seq<Scored>, p: Paragraph, best: seq<Candidate>): seq<Scored> {
    if best == [] then results
    else
      var init, c := Emit(results, p, best[..|best| - 1]), best[|best| - 1];
      if |LinksOf(init, p.docId, IdOf(c.1))| >= MAX_PARAGRAPHS_PER_DOC_SYMBOL then init
      else init + [Scored(p, c.1, c.0)]
  }

  ghost predicate ValidRanking(rs: seq<Ranked>) {
    forall i :: 0 <= i < |rs| ==> ValidDict(rs[i].best) && Labelled(rs[i].best)
  }

  /** Candidates are filed under their own identity. */
  ghost predicate Labelled(d: Bests) { forall id :: id in d.at ==> IdOf(d.at[id].1) == id }

  function EmitAll(rs: seq<Ranked>): seq<Scored>
    requires ValidRanking(rs)
  {
    if rs == [] then []
    else
      var x := rs[|rs| - 1];
      Emit(EmitAll(rs[..|rs| - 1]), x.paragraph, Values(x.best))
  }

  lemma {:induction false} BestLabelled(cs: seq<Candidate>)
    ensures Labelled(Best(cs))
  {
    if cs != [] {
      BestLabelled(cs[..|cs| - 1]);
    }
  }

  /** The dictionary holds the best score of every candidate symbol. */
  lemma {:induction false} BestIsHighest(cs: seq<Candidate>, i: nat)
    requires i < |cs|
    ensures IdOf(cs[i].1) in Best(cs).at && cs[i].0 <= Best(cs).at[IdOf(cs[i].1)].0
  {
    if i < |cs| - 1 {
      BestIsHighest(cs[..|cs| - 1], i);
    }
  }

  lemma {:induction false} BestIsCandidate(cs: seq<Candidate>, id: Identity)
    requires id in Best(cs).at
    ensures exists i :: 0 <= i < |cs| && cs[i] == Best(cs).at[id] && IdOf(cs[i].1) == id
  {
    var n := |cs| - 1;
    if Best(cs).at[id] == cs[n] && IdOf(cs[n].1) == id {
    } else {
      BestIsCandidate(cs[..n], id);
      var i :| 0 <= i < n && cs[..n][i] == Best(cs[..n]).at[id] && IdOf(cs[..n][i].1) == id;
      assert cs[i] == cs[..n][i];
    }
  }

  function Rank(r: Rules, symbols: seq<Symbol>, mentions: Mentions, paragraphs: seq<Paragraph>): (rs: seq<Ranked>)
    ensures |rs| == |paragraphs|
  {
    seq(|paragraphs|, i requires 0 <= i < |paragraphs| =>
      Ranked(paragraphs[i], ParagraphBest(r, symbols, mentions, paragraphs[i])))
  }

  lemma RankIsValid(r: Rules, symbols: seq<Symbol>, mentions: Mentions, paragraphs: seq<Paragraph>)
    ensures ValidRanking(Rank(r, symbols, mentions, paragraphs))
  {
    forall i | 0 <= i < |paragraphs|
      ensures Labelled(ParagraphBest(r, symbols, mentions, paragraphs[i]))
    {
      var keys := ParagraphKeys(r, symbols, mentions, paragraphs[i]);
      BestLabelled(AllCandidates(r, symbols, ActiveStems(r, symbols, paragraphs[i].docId, keys), keys));
    }
  }

  /** compute_scored_pairs. */
  function ScoredPairs(r: Rules, symbols: seq<Symbol>, mentions: Mentions, paragraphs: seq<Paragraph>): seq<Scored> {
    RankIsValid(r, symbols, mentions, paragraphs);
    EmitAll(Rank(r, symbols, mentions, paragraphs))
  }
}
