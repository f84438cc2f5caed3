/** The matcher's output is what the build step assumes, so the whole pipeline settles. */
module EndToEnd {
  import opened Common
  import opened Records
  import opened Store
  import opened Build
  import opened Matcher
  import opened MatcherLaws

  /** What the readers guarantee: deduplicated paragraphs and named symbols. */
  ghost predicate WellFormedInput(symbols: seq<Symbol>, paragraphs: seq<Paragraph>) {
    && (forall i, j :: 0 <= i < j < |paragraphs| ==>
      AnchorOfParagraph(paragraphs[i]) != AnchorOfParagraph(paragraphs[j]))
    && (forall i :: 0 <= i < |paragraphs| ==> paragraphs[i].docId != "")
    && (forall i :: 0 <= i < |symbols| ==> symbols[i].path != "" && symbols[i].name != "")
  }

  /** No symbol has an end line but no start line. */
  ghost predicate NoEndOnly(symbols: seq<Symbol>) {
    forall i :: 0 <= i < |symbols| ==> symbols[i].start.Some? || symbols[i].end.None?
  }

  function MatchOf(x: Scored): Match { Match(AnchorOfParagraph(x.paragraph), IdOf(x.symbol), x.score) }

  /** The snapshot a run works on, given its hashes. */
  function SnapshotOf(projectId: string, symbols: seq<Symbol>, paragraphs: seq<Paragraph>,
                      docSha: string -> Option<string>, codeSha: Identity -> Option<string>,
                      found: seq<Scored>): Snapshot {
    Snapshot(projectId,
             set i | 0 <= i < |paragraphs| :: AnchorOfParagraph(paragraphs[i]),
             set i | 0 <= i < |symbols| :: IdOf(symbols[i]),
             docSha, codeSha,
             seq(|found|, i requires 0 <= i < |found| => MatchOf(found[i])))
  }

  lemma {:induction false} QualifyingOrigin(rs: seq<Ranked>, docId: string, id: Identity, x: Scored)
    requires x in Qualifying(rs, docId, id)
    ensures exists i :: 0 <= i < |rs| && x in LinkOf(rs[i], docId, id)
  {
    var n := |rs| - 1;
    if x in Qualifying(rs[..n], docId, id) {
      QualifyingOrigin(rs[..n], docId, id, x);
      var i :| 0 <= i < n && x in LinkOf(rs[..n][i], docId, id);
      assert rs[i] == rs[..n][i];
    }
  }

  lemma {:induction false} FirstWithOrigin(symbols: seq<Symbol>, id: Identity)
    ensures FirstWith(symbols, id).Some? ==> FirstWith(symbols, id).value in symbols
  {
    if symbols != [] {
      FirstWithOrigin(symbols[..|symbols| - 1], id);
    }
  }

  /** Every link joins a paragraph and a symbol that were read. */
  lemma LinksJoinWhatWasRead(r: Rules, symbols: seq<Symbol>, mentions: Mentions, paragraphs: seq<Paragraph>, x: Scored)
    requires x in ScoredPairs(r, symbols, mentions, paragraphs)
    ensures x.paragraph in paragraphs && x.symbol in symbols
  {
    var rs := Rank(r, symbols, mentions, paragraphs);
    var docId, id := x.paragraph.docId, IdOf(x.symbol);
    RankIsValid(r, symbols, mentions, paragraphs);
    EmittedExactly(rs, x);
    QualifyingOrigin(rs, docId, id, x);
    var i :| 0 <= i < |rs| && x in LinkOf(rs[i], docId, id);
    OriginWasRead(r, symbols, mentions, paragraphs[i], docId, id, x);
  }

  lemma OriginWasRead(r: Rules, symbols: seq<Symbol>, mentions: Mentions, p: Paragraph, docId: string,
      id: Identity, x: Scored)
    requires x in LinkOf(Ranked(p, ParagraphBest(r, symbols, mentions, p)), docId, id)
    ensures x.paragraph == p && x.symbol in symbols
  {
    RetainedSymbol(r, symbols, mentions, p, id);
    FirstWithOrigin(symbols, id);
  }

  lemma KeysDetermineMatches(m: Match, m': Match)
    requires m.code.start.Some? || m.code.end.None?
    requires m'.code.start.Some? || m'.code.end.None?
    requires KeyOf(m) == KeyOf(m')
    ensures m.anchor == m'.anchor && m.code == m'.code
  {
  }

  /** The matcher's pairs join what was read and make acceptable records. */
  lemma MatcherFeedsBuild(r: Rules, symbols: seq<Symbol>, mentions: Mentions, paragraphs: seq<Paragraph>,
                          projectId: string, docSha: string -> Option<string>, codeSha: Identity -> Option<string>)
    requires WellFormedInput(symbols, paragraphs) && projectId != ""
    ensures var found := ScoredPairs(r, symbols, mentions, paragraphs);
      var s := SnapshotOf(projectId, symbols, paragraphs, docSha, codeSha, found);
      WellRead(s) && AllAcceptable(FreshRecords(s))
  {
    var found := ScoredPairs(r, symbols, mentions, paragraphs);
    var s := SnapshotOf(projectId, symbols, paragraphs, docSha, codeSha, found);
    forall i | 0 <= i < |found|
      ensures s.matches[i].anchor in s.anchors && s.matches[i].code in s.symbols
      ensures Acceptable(RecordOf(s, s.matches[i]))
    {
      LinksJoinWhatWasRead(r, symbols, mentions, paragraphs, found[i]);
    }
  }

  /** Without end-only symbols every link has its own key and the snapshot settles. */
  lemma StartedSpansSettle(r: Rules, symbols: seq<Symbol>, mentions: Mentions, paragraphs: seq<Paragraph>,
                           projectId: string, docSha: string -> Option<string>, codeSha: Identity -> Option<string>)
    requires WellFormedInput(symbols, paragraphs) && projectId != "" && NoEndOnly(symbols)
    ensures var found := ScoredPairs(r, symbols, mentions, paragraphs);
      var s := SnapshotOf(projectId, symbols, paragraphs, docSha, codeSha, found);
      DistinctKeys(FreshRecords(s)) && Settles(s)
  {
    var found := ScoredPairs(r, symbols, mentions, paragraphs);
    var s := SnapshotOf(projectId, symbols, paragraphs, docSha, codeSha, found);
    MatcherFeedsBuild(r, symbols, mentions, paragraphs, projectId, docSha, codeSha);
    forall i | 0 <= i < |found|
      ensures s.matches[i].code.start.Some? || s.matches[i].code.end.None?
    {
      LinksJoinWhatWasRead(r, symbols, mentions, paragraphs, found[i]);
    }
    RankIsValid(r, symbols, mentions, paragraphs);
    EmittedOnce(Rank(r, symbols, mentions, paragraphs));
    forall i, j | 0 <= i < j < |found|
      ensures KeyOf(s.matches[i]) != KeyOf(s.matches[j])
    {
      if KeyOf(s.matches[i]) == KeyOf(s.matches[j]) {
        KeysDetermineMatches(s.matches[i], s.matches[j]);
      }
    }
    forall i | 0 <= i < |found|
      ensures Recognised(s, s.matches[i])
    {
      LinesDecideRecognition(s, i);
    }
  }

  /** An incremental run on any store, over whatever the readers and the matcher deliver, ends with
      every match active and current, no active link drifted and nothing for a second run to write,
      exactly when the snapshot settles; and it does when no symbol is end-only. */
  lemma PipelineSettles(r: Rules, symbols: seq<Symbol>, mentions: Mentions, paragraphs: seq<Paragraph>,
                        projectId: string, docSha: string -> Option<string>, codeSha: Identity -> Option<string>,
                        log: seq<Record>, now: nat, later: nat)
    requires WellFormedInput(symbols, paragraphs) && projectId != ""
    ensures var found := ScoredPairs(r, symbols, mentions, paragraphs);
      var s := SnapshotOf(projectId, symbols, paragraphs, docSha, codeSha, found);
      var once := BuildLog(log, s, Incremental, now);
      && (Steady(once, s) <==> Settles(s))
      && (BuildLog(once, s, Incremental, later) == once <==> Settles(s))
      && (NoEndOnly(symbols) ==> Settles(s))
  {
    var found := ScoredPairs(r, symbols, mentions, paragraphs);
    var s := SnapshotOf(projectId, symbols, paragraphs, docSha, codeSha, found);
    MatcherFeedsBuild(r, symbols, mentions, paragraphs, projectId, docSha, codeSha);
    SteadyExactly(log, s, now);
    SecondRunIsNoOpExactly(log, s, now, later);
    if NoEndOnly(symbols) {
      StartedSpansSettle(r, symbols, mentions, paragraphs, projectId, docSha, codeSha);
    }
  }
}
