/** Identifier splitting and match keys (normalizers.py), over ASCII text. */
module Normalizers {
  import opened Common

  predicate IsLower(c: char) { 'a' <= c <= 'z' }
  predicate IsUpper(c: char) { 'A' <= c <= 'Z' }
  predicate IsDigit(c: char) { '0' <= c <= '9' }
  predicate IsAlnum(c: char) { IsLower(c) || IsUpper(c) || IsDigit(c) }

  function LowerChar(c: char): char { if IsUpper(c) then (c as int + 32) as char else c }
  function UpperChar(c: char): char { if IsLower(c) then (c as int - 32) as char else c }

  function Lower(w: string): (r: string)
    ensures |r| == |w|
  {
    seq(|w|, i requires 0 <= i < |w| => LowerChar(w[i]))
  }

  ghost predicate All(w: string, p: char -> bool) { forall i :: 0 <= i < |w| ==> p(w[i]) }

  function Concat(ws: seq<string>): string {
    if ws == [] then "" else Concat(ws[..|ws| - 1]) + ws[|ws| - 1]
  }

  // ------------------------------------------------------------ camel splitting

  /** A word starts at position i: after a lowercase letter or digit, or at the last capital
      of an acronym that a lowercase letter follows. */
  predicate Cut(chunk: string, i: nat)
    requires i < |chunk|
  {
    && i > 0 && IsUpper(chunk[i])
    && (IsLower(chunk[i - 1]) || IsDigit(chunk[i - 1])
        || (IsUpper(chunk[i - 1]) && i + 1 < |chunk| && IsLower(chunk[i + 1])))
  }

  /** The words of the first n characters, looking one character ahead. */
  function Words(chunk: string, n: nat): (ws: seq<string>)
    requires n <= |chunk|
    ensures n > 0 ==> ws != []
  {
    if n == 0 then []
    else
      var ws, c := Words(chunk, n - 1), chunk[n - 1];
      if n == 1 || Cut(chunk, n - 1) then ws + [[c]]
      else ws[|ws| - 1 := ws[|ws| - 1] + [c]]
  }

  function CamelWords(chunk: string): seq<string> { Words(chunk, |chunk|) }

  /** _split_camel: a buffer and a word list. */
  method SplitCamel(chunk: string) returns (words: seq<string>)
    ensures words == CamelWords(chunk)
  {
    words := [];
    var buffer := "";
    for i := 0 to |chunk|
      invariant i == 0 ==> words == [] && buffer == ""
      invariant i > 0 ==> buffer != "" && buffer[|buffer| - 1] == chunk[i - 1] && Words(chunk, i) == words + [buffer]
    {
      var c := chunk[i];
      ghost var done := words + [buffer];
      assert done[|done| - 1 := buffer + [c]] == words + [buffer + [c]];
      assert buffer == "" ==> buffer + [c] == [c];
      if buffer != "" && IsUpper(c)
         && (IsLower(buffer[|buffer| - 1]) || IsDigit(buffer[|buffer| - 1])
             || (IsUpper(buffer[|buffer| - 1]) && i + 1 < |chunk| && IsLower(chunk[i + 1]))) {
        words := words + [buffer];
        buffer := [c];
      } else {
        buffer := buffer + [c];
      }
    }
    if buffer != "" {
      words := words + [buffer];
    }
  }

  /** Non-empty words that make up a text. */
  ghost predicate MakeUp(ws: seq<string>, text: string) {
    Concat(ws) == text && forall i :: 0 <= i < |ws| ==> ws[i] != ""
  }

  lemma NewWordMakesUp(ws: seq<string>, text: string, c: char)
    requires MakeUp(ws, text)
    ensures MakeUp(ws + [[c]], text + [c])
  {
    ConcatWord(ws, [c]);
  }

  lemma LongerWordMakesUp(ws: seq<string>, text: string, c: char)
    requires MakeUp(ws, text) && ws != []
    ensures MakeUp(ws[|ws| - 1 := ws[|ws| - 1] + [c]], text + [c])
  {
    ConcatGrow(ws, c);
  }

  /** Splitting conserves the characters and produces no empty word. */
  lemma {:induction false} SplitConserves(chunk: string, n: nat)
    requires n <= |chunk|
    ensures MakeUp(Words(chunk, n), chunk[..n])
  {
    if n > 0 {
      var ws, c := Words(chunk, n - 1), chunk[n - 1];
      SplitConserves(chunk, n - 1);
      assert chunk[..n] == chunk[..n - 1] + [c];
      if n == 1 || Cut(chunk, n - 1) {
        NewWordMakesUp(ws, chunk[..n - 1], c);
      } else {
        LongerWordMakesUp(ws, chunk[..n - 1], c);
      }
    }
  }

  lemma ConcatWord(ws: seq<string>, w: string)
    ensures Concat(ws + [w]) == Concat(ws) + w
  {
    assert (ws + [w])[..|ws|] == ws;
  }

  lemma ConcatGrow(ws: seq<string>, c: char)
    requires ws != []
    ensures Concat(ws[|ws| - 1 := ws[|ws| - 1] + [c]]) == Concat(ws) + [c]
  {
    var n := |ws| - 1;
    assert ws[n := ws[n] + [c]][..n] == ws[..n];
  }

  // ----------------------------------------------------- splitting is local

  ghost predicate NoCuts(s: string) { forall i :: 0 < i < |s| ==> !IsUpper(s[i]) }

  lemma {:induction false} UncutWord(s: string, n: nat)
    requires NoCuts(s) && 0 < n <= |s|
    ensures Words(s, n) == [s[..n]]
  {
    if n > 1 {
      UncutWord(s, n - 1);
      assert s[..n] == s[..n - 1] + [s[n - 1]];
    } else {
      assert s[..1] == [s[0]];
    }
  }

  ghost predicate Joint(a: string, b: string) {
    a != "" && b != "" && IsUpper(b[0]) && (IsLower(a[|a| - 1]) || IsDigit(a[|a| - 1]))
  }

  lemma {:induction false} WordsLeft(a: string, b: string, n: nat)
    requires Joint(a, b) && n <= |a|
    ensures Words(a + b, n) == Words(a, n)
  {
    if n > 0 {
      WordsLeft(a, b, n - 1);
      assert Cut(a + b, n - 1) == Cut(a, n - 1);
    }
  }

  lemma {:induction false} WordsRight(a: string, b: string, n: nat)
    requires Joint(a, b) && 0 < n <= |b|
    ensures Words(a + b, |a| + n) == CamelWords(a) + Words(b, n)
  {
    var s := a + b;
    if n == 1 {
      WordsLeft(a, b, |a|);
      assert Cut(s, |a|);
    } else {
      WordsRight(a, b, n - 1);
      assert s[|a| + n - 1] == b[n - 1] && s[|a| + n - 2] == b[n - 2];
      assert Cut(s, |a| + n - 1) == Cut(b, n - 1);
    }
  }

  // -------------------------------------------------------------- round trips

  /** A word as identifiers are made of: lowercase, at least two characters, a letter first. */
  ghost predicate IsWord(w: string) {
    |w| >= 2 && IsLower(w[0]) && All(w, c => IsLower(c) || IsDigit(c))
  }

  ghost predicate AreWords(ws: seq<string>) { forall i :: 0 <= i < |ws| ==> IsWord(ws[i]) }

  function Capital(w: string): string { if w == "" then "" else [UpperChar(w[0])] + w[1..] }

  function Capitals(ws: seq<string>): (r: seq<string>)
    ensures |r| == |ws|
  {
    seq(|ws|, i requires 0 <= i < |ws| => Capital(ws[i]))
  }

  function Pascal(ws: seq<string>): string { Concat(Capitals(ws)) }

  function CamelCaps(ws: seq<string>): seq<string> {
    if ws == [] then [] else [ws[0]] + Capitals(ws[1..])
  }

  function Camel(ws: seq<string>): string { Concat(CamelCaps(ws)) }

  ghost predicate PrintedWord(w: string) {
    |w| >= 2 && NoCuts(w) && !IsUpper(w[|w| - 1]) && All(w, IsAlnum)
  }

  /** A list of printed words: uncut inside, and joined at a capital. */
  ghost predicate Printed(ws: seq<string>) {
    && (forall i :: 0 <= i < |ws| ==> PrintedWord(ws[i]))
    && (forall i :: 0 < i < |ws| ==> IsUpper(ws[i][0]))
  }

  /** The words of a text printed from them are found again. */
  ghost predicate Splits(ws: seq<string>, text: string) {
    && CamelWords(text) == ws && All(text, IsAlnum)
    && (ws == [] <==> text == "") && (text != "" ==> !IsUpper(text[|text| - 1]))
  }

  lemma PrintedPrefix(ws: seq<string>)
    requires Printed(ws) && ws != []
    ensures Printed(ws[..|ws| - 1]) && PrintedWord(ws[|ws| - 1]) && (|ws| > 1 ==> IsUpper(ws[|ws| - 1][0]))
  {
  }

  lemma {:induction false} PrintedSplits(ws: seq<string>)
    requires Printed(ws)
    ensures Splits(ws, Concat(ws))
  {
    if ws != [] {
      var init, b := ws[..|ws| - 1], ws[|ws| - 1];
      PrintedPrefix(ws);
      PrintedSplits(init);
      OneMoreWord(init, Concat(init), b);
      assert ws == init + [b];
    }
  }

  /** A printed word behind a text that ends in no capital is split off again. */
  lemma OneMoreWord(ws: seq<string>, a: string, b: string)
    requires Splits(ws, a) && PrintedWord(b) && (ws == [] || IsUpper(b[0]))
    ensures Splits(ws + [b], a + b)
  {
    UncutWord(b, |b|);
    assert b[..|b|] == b;
    if a == "" {
      assert a + b == b;
    } else {
      assert Joint(a, b) by {
        assert IsAlnum(a[|a| - 1]);
      }
      WordsRight(a, b, |b|);
    }
  }

  /** Capitalising changes the first character only. */
  lemma CapitalAt(w: string, i: nat)
    requires i < |w|
    ensures |Capital(w)| == |w| && Capital(w)[i] == if i == 0 then UpperChar(w[0]) else w[i]
  {
  }

  lemma WordAt(w: string, i: nat)
    requires IsWord(w) && i < |w|
    ensures IsAlnum(w[i]) && !IsUpper(w[i]) && LowerChar(w[i]) == w[i]
  {
    assert IsLower(w[i]) || IsDigit(w[i]);
  }

  lemma CapitalOfWordAt(w: string, i: nat)
    requires IsWord(w) && i < |w|
    ensures |Capital(w)| == |w| && IsAlnum(Capital(w)[i]) && LowerChar(Capital(w)[i]) == w[i]
    ensures IsUpper(Capital(w)[i]) <==> i == 0
  {
    CapitalAt(w, i);
    WordAt(w, i);
  }

  lemma WordPrints(w: string)
    requires IsWord(w)
    ensures PrintedWord(w) && PrintedWord(Capital(w)) && IsUpper(Capital(w)[0])
    ensures Lower(w) == w && Lower(Capital(w)) == w
  {
    var c := Capital(w);
    CapitalAt(w, 0);
    forall i | 0 <= i < |w|
      ensures IsAlnum(w[i]) && !IsUpper(w[i]) && Lower(w)[i] == w[i]
    {
      WordAt(w, i);
    }
    forall i | 0 <= i < |c|
      ensures IsAlnum(c[i]) && (IsUpper(c[i]) <==> i == 0) && Lower(c)[i] == w[i]
    {
      CapitalOfWordAt(w, i);
    }
  }

  lemma CapitalsPrint(ws: seq<string>)
    requires AreWords(ws)
    ensures Printed(Capitals(ws)) && LowerAll(Capitals(ws)) == ws
    ensures forall i :: 0 <= i < |ws| ==> IsUpper(Capitals(ws)[i][0])
  {
    forall i | 0 <= i < |ws|
      ensures PrintedWord(Capitals(ws)[i]) && IsUpper(Capitals(ws)[i][0]) && Lower(Capitals(ws)[i]) == ws[i]
    {
      WordPrints(ws[i]);
    }
  }

  lemma CamelPrints(ws: seq<string>)
    requires AreWords(ws)
    ensures Printed(CamelCaps(ws)) && LowerAll(CamelCaps(ws)) == ws
  {
    if ws != [] {
      var tail := ws[1..];
      CapitalsPrint(tail);
      WordPrints(ws[0]);
      PrintedCons(ws[0], Capitals(tail));
      LowerAllCons(ws[0], Capitals(tail));
      assert ws == [ws[0]] + tail;
    }
  }

  lemma PrintedCons(w: string, ws: seq<string>)
    requires PrintedWord(w) && Printed(ws) && forall i :: 0 <= i < |ws| ==> IsUpper(ws[i][0])
    ensures Printed([w] + ws)
  {
    var all := [w] + ws;
    forall i | 0 <= i < |all|
      ensures PrintedWord(all[i]) && (i > 0 ==> IsUpper(all[i][0]))
    {
      if i > 0 {
        assert all[i] == ws[i - 1];
      }
    }
  }

  lemma LowerAllCons(w: string, ws: seq<string>)
    ensures LowerAll([w] + ws) == [Lower(w)] + LowerAll(ws)
  {
  }

  // ------------------------------------------------------------- whole identifiers

  /** The maximal runs of letters and digits. */
  function Chunks(text: string): seq<string> { ChunksFrom(text, "") }

  function ChunksFrom(text: string, run: string): seq<string> {
    if text == "" then (if run == "" then [] else [run])
    else if IsAlnum(text[0]) then ChunksFrom(text[1..], run + [text[0]])
    else (if run == "" then [] else [run]) + ChunksFrom(text[1..], "")
  }

  function LowerAll(ws: seq<string>): (r: seq<string>)
    ensures |r| == |ws|
  {
    seq(|ws|, i requires 0 <= i < |ws| => Lower(ws[i]))
  }

  function SplitChunks(chunks: seq<string>): seq<string> {
    if chunks == [] then [] else LowerAll(CamelWords(chunks[0])) + SplitChunks(chunks[1..])
  }

  /** split_identifier_words, which is also token_match_key. */
  function MatchKey(text: string): seq<string> { SplitChunks(Chunks(text)) }

  function Join(ws: seq<string>, sep: char): string {
    if ws == [] then "" else if |ws| == 1 then ws[0] else ws[0] + [sep] + Join(ws[1..], sep)
  }

  lemma {:induction false} RunOfAlnum(w: string, text: string, run: string)
    requires All(w, IsAlnum)
    ensures ChunksFrom(w + text, run) == ChunksFrom(text, run + w)
  {
    if w == "" {
      assert w + text == text && run + w == run;
    } else {
      RunOfAlnum(w[1..], text, run + [w[0]]);
      assert (w + text)[1..] == w[1..] + text && run + [w[0]] + w[1..] == run + w;
    }
  }

  lemma {:induction false} JoinedChunks(ws: seq<string>, sep: char)
    requires !IsAlnum(sep) && forall i :: 0 <= i < |ws| ==> ws[i] != "" && All(ws[i], IsAlnum)
    ensures Chunks(Join(ws, sep)) == ws
  {
    if ws != [] {
      var w := ws[0];
      if |ws| == 1 {
        RunOfAlnum(w, "", "");
        assert w + "" == w && "" + w == w;
      } else {
        var rest := Join(ws[1..], sep);
        JoinedChunks(ws[1..], sep);
        RunOfAlnum(w, [sep] + rest, "");
        assert Join(ws, sep) == w + ([sep] + rest) && ([sep] + rest)[1..] == rest && "" + w == w;
      }
    }
  }

  lemma SingleChunk(s: string)
    requires s != "" && All(s, IsAlnum)
    ensures MatchKey(s) == LowerAll(CamelWords(s))
  {
    JoinedChunks([s], '_');
    assert Chunks(s) == [s];
    assert SplitChunks([s]) == LowerAll(CamelWords(s)) + [];
  }

  lemma {:induction false} PlainChunks(ws: seq<string>)
    requires AreWords(ws)
    ensures SplitChunks(ws) == ws
  {
    if ws != [] {
      PlainChunks(ws[1..]);
      var w := ws[0];
      assert IsWord(w);
      WordPrints(w);
      UncutWord(w, |w|);
      assert w[..|w|] == w;
      assert LowerAll([w]) == [w];
    }
  }

  /** Every spelling of a list of words has that list as its match key. */
  lemma SpellingsShareTheirKey(ws: seq<string>)
    requires AreWords(ws)
    ensures MatchKey(Join(ws, '_')) == ws && MatchKey(Join(ws, '.')) == ws && MatchKey(Join(ws, '-')) == ws
    ensures MatchKey(Camel(ws)) == ws && MatchKey(Pascal(ws)) == ws
  {
    assert forall i :: 0 <= i < |ws| ==> IsWord(ws[i]) && All(ws[i], IsAlnum);
    JoinedChunks(ws, '_');
    JoinedChunks(ws, '.');
    JoinedChunks(ws, '-');
    PlainChunks(ws);
    CapitalsPrint(ws);
    CamelPrints(ws);
    PrintedSplits(Capitals(ws));
    PrintedSplits(CamelCaps(ws));
    if ws != [] {
      SingleChunk(Pascal(ws));
      SingleChunk(Camel(ws));
    }
  }

  // ------------------------------------------------------ keys stored as text

  lemma {:induction false} ChunksAlnum(text: string, run: string)
    requires All(run, IsAlnum)
    ensures forall i :: 0 <= i < |ChunksFrom(text, run)| ==>
      ChunksFrom(text, run)[i] != "" && All(ChunksFrom(text, run)[i], IsAlnum)
    decreases |text|
  {
    if text != "" {
      if IsAlnum(text[0]) {
        ChunksAlnum(text[1..], run + [text[0]]);
      } else {
        ChunksAlnum(text[1..], "");
      }
    }
  }

  lemma {:induction false} CamelAlnum(chunk: string, n: nat)
    requires All(chunk, IsAlnum) && n <= |chunk|
    ensures forall i :: 0 <= i < |Words(chunk, n)| ==> Words(chunk, n)[i] != "" && All(Words(chunk, n)[i], IsAlnum)
  {
    if n > 0 {
      CamelAlnum(chunk, n - 1);
    }
  }

  ghost predicate CleanWords(ws: seq<string>) { forall i :: 0 <= i < |ws| ==> ws[i] != "" && All(ws[i], IsAlnum) }

  lemma {:induction false} SplitChunksClean(chunks: seq<string>)
    requires CleanWords(chunks)
    ensures CleanWords(SplitChunks(chunks))
  {
    if chunks != [] {
      SplitChunksClean(chunks[1..]);
      CamelAlnum(chunks[0], |chunks[0]|);
      assert CleanWords(LowerAll(CamelWords(chunks[0])));
    }
  }

  lemma KeyIsClean(text: string)
    ensures CleanWords(MatchKey(text))
  {
    ChunksAlnum(text, "");
    SplitChunksClean(Chunks(text));
  }

  /** normalize_match_key_str: the key as one string, for an indexed column. */
  function MatchKeyString(text: string): string { Join(MatchKey(text), ' ') }

  lemma JoinedKeyReadsBack(ws: seq<string>)
    requires CleanWords(ws)
    ensures Chunks(Join(ws, ' ')) == ws
  {
    JoinedChunks(ws, ' ');
  }

  /** The stored strings of two names are equal exactly when their keys are. */
  lemma KeyStringsIdentifyKeys(a: string, b: string)
    ensures MatchKeyString(a) == MatchKeyString(b) <==> MatchKey(a) == MatchKey(b)
  {
    KeyIsClean(a);
    KeyIsClean(b);
    JoinedKeyReadsBack(MatchKey(a));
    JoinedKeyReadsBack(MatchKey(b));
  }
}
