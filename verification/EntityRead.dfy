/** read_doc_entity_names (link_engine.py): the full edge scan, the two-stage read that filters
    entities by the match index first, and why both give the same links. */
module EntityRead {
  import opened Common
  import opened Build
  import opened Normalizers
  import opened Matcher
  import opened MatcherLoop
  import opened MatcherLaws
  import opened PagedReader

  const EDGE_CHUNK := 500

  /** One project's document graph: the entities stamped with the project, the mention edges of
      its paragraphs (paragraph node, entity node), and the properties read from both ends. */
  datatype DocGraph = DocGraph(
    entityTable: seq<Row>,
    edgeTable: seq<Row>,
    names: map<int, string>,
    anchors: map<int, Anchor>)

  ghost predicate ValidGraph(g: DocGraph) {
    && Ordered(g.entityTable) && Ordered(g.edgeTable)
    && (forall row :: row in g.entityTable ==>
      0 <= row.anchor < 0x4000_0000_0000_0000 && row.tail == row.anchor && row.anchor in g.names)
    && (forall row :: row in g.edgeTable ==>
      0 <= row.anchor < 0x4000_0000_0000_0000 && row.anchor in g.anchors && row.tail in g.names)
  }

  type Mention = (Anchor, string)

  /** What one edge says. */
  function Said(g: DocGraph, row: Row): Mention
    requires row.anchor in g.anchors && row.tail in g.names
  {
    (g.anchors[row.anchor], g.names[row.tail])
  }

  // ---------------------------------------------------------- collecting mentions

  predicate Counts(m: Mention) { m.0.docId != "" && m.1 != "" }

  function AddMention(ms: Mentions, m: Mention): Mentions {
    if Counts(m) then ms[m.0 := AddNew(NamesAt(ms, m.0), m.1)] else ms
  }

  ghost predicate Collected(ms: Mentions, said: set<Mention>) {
    forall a, n :: n in NamesAt(ms, a) <==> (a, n) in said && Counts((a, n))
  }

  lemma AddMentionCollects(ms: Mentions, said: set<Mention>, m: Mention)
    requires Collected(ms, said)
    ensures Collected(AddMention(ms, m), said + {m})
  {
  }

  // ------------------------------------------------------------------ full scan

  ghost function AllSaid(g: DocGraph): set<Mention>
    requires ValidGraph(g)
  {
    set row | row in g.edgeTable :: Said(g, row)
  }

  method FullScan(g: DocGraph, batch: nat) returns (ms: Mentions)
    requires ValidGraph(g) && batch >= 1
    ensures Collected(ms, AllSaid(g))
  {
    var rows, _ := PagedRows(g.edgeTable, batch, Some(|g.edgeTable|), None, None);
    ms := map[];
    ghost var said: set<Mention> := {};
    assert forall i :: 0 <= i < |rows| ==> rows[i] in Elements(rows);
    for i := 0 to |rows|
      invariant Collected(ms, said)
      invariant said == set j | 0 <= j < i :: Said(g, rows[j])
    {
      AddMentionCollects(ms, said, Said(g, rows[i]));
      ms := AddMention(ms, Said(g, rows[i]));
      said := said + {Said(g, rows[i])};
    }
    assert said == AllSaid(g) by {
      forall m | m in AllSaid(g)
        ensures m in said
      {
        var row :| row in g.edgeTable && m == Said(g, row);
        assert row in Elements(rows);
        var j :| 0 <= j < |rows| && rows[j] == row;
      }
    }
  }

  // ------------------------------------------------------------------ two stages

  /** The first stage keeps a stamped entity whose name is an identifier some symbol answers to. */
  predicate Wanted(r: Rules, symbols: seq<Symbol>, name: string) {
    EntityLinkable(r, name) && Linkable(r, name) && Candidates(symbols, MatchKey(name)) != []
  }

  ghost predicate Stamped(g: DocGraph, e: int) { Row(e, e) in g.entityTable }

  ghost function FilteredSaid(r: Rules, symbols: seq<Symbol>, g: DocGraph): set<Mention>
    requires ValidGraph(g)
  {
    set row | row in g.edgeTable && Stamped(g, row.tail) && Wanted(r, symbols, g.names[row.tail]) :: Said(g, row)
  }

  method WantedEntities(r: Rules, index: Index, ghost symbols: seq<Symbol>, g: DocGraph, batch: nat)
    returns (ids: seq<int>)
    requires ValidGraph(g) && IsIndex(index, symbols) && batch >= 1
    ensures forall e :: e in ids <==> Stamped(g, e) && e in g.names && Wanted(r, symbols, g.names[e])
  {
    var rows, _ := PagedRows(g.entityTable, batch, Some(|g.entityTable|), None, None);
    assert forall row :: row in rows <==> row in g.entityTable by {
      assert forall row :: row in rows <==> row in Elements(rows);
      assert forall row :: row in g.entityTable <==> row in Elements(g.entityTable);
    }
    ids := [];
    for i := 0 to |rows|
      invariant forall e :: e in ids <==> Row(e, e) in rows[..i] && IsWanted(r, symbols, g, e)
    {
      assert rows[..i + 1] == rows[..i] + [rows[i]];
      assert rows[i] in rows && rows[i] in g.entityTable;
      var e := rows[i].anchor;
      assert rows[i] == Row(e, e);
      var found := MatchIndexLookup(r, index, symbols, g.names[e]);
      if EntityLinkable(r, g.names[e]) && found != [] {
        ids := ids + [e];
      }
    }
    assert rows[..|rows|] == rows;
  }

  ghost predicate IsWanted(r: Rules, symbols: seq<Symbol>, g: DocGraph, e: int) {
    e in g.names && Wanted(r, symbols, g.names[e])
  }

  /** The edges of a chunk of entities, in whatever order the server sends them. */
  method EdgesOf(g: DocGraph, ids: seq<int>) returns (said: seq<Mention>)
    requires ValidGraph(g)
    ensures Elements(said) == set row | row in g.edgeTable && row.tail in ids :: Said(g, row)
  {
    said := [];
    for i := 0 to |g.edgeTable|
      invariant Elements(said) == set j | 0 <= j < i && g.edgeTable[j].tail in ids :: Said(g, g.edgeTable[j])
    {
      if g.edgeTable[i].tail in ids {
        var m := Said(g, g.edgeTable[i]);
        assert Elements(said + [m]) == Elements(said) + {m};
        said := said + [m];
      }
    }
  }

  method AbsorbMentions(ms: Mentions, ghost before: set<Mention>, said: seq<Mention>) returns (ms': Mentions)
    requires Collected(ms, before)
    ensures Collected(ms', before + Elements(said))
  {
    ms' := ms;
    for i := 0 to |said|
      invariant Collected(ms', before + Elements(said[..i]))
    {
      AddMentionCollects(ms', before + Elements(said[..i]), said[i]);
      assert before + Elements(said[..i + 1]) == before + Elements(said[..i]) + {said[i]};
      ms' := AddMention(ms', said[i]);
    }
    assert said[..|said|] == said;
  }

  ghost function SaidOf(g: DocGraph, ids: seq<int>): set<Mention>
    requires ValidGraph(g)
  {
    set row | row in g.edgeTable && row.tail in ids :: Said(g, row)
  }

  method TwoStageRead(r: Rules, index: Index, ghost symbols: seq<Symbol>, g: DocGraph, batch: nat)
    returns (ms: Mentions)
    requires ValidGraph(g) && IsIndex(index, symbols) && batch >= 1
    ensures Collected(ms, FilteredSaid(r, symbols, g))
  {
    var ids := WantedEntities(r, index, symbols, g, batch);
    ms := map[];
    var offset := 0;
    while offset < |ids|
      invariant 0 <= offset <= |ids|
      invariant Collected(ms, SaidOf(g, ids[..offset]))
    {
      var next := if offset + EDGE_CHUNK < |ids| then offset + EDGE_CHUNK else |ids|;
      var chunk := ids[offset..next];
      var said := EdgesOf(g, chunk);
      assert ids[..next] == ids[..offset] + chunk;
      assert SaidOf(g, ids[..next]) == SaidOf(g, ids[..offset]) + Elements(said);
      ms := AbsorbMentions(ms, SaidOf(g, ids[..offset]), said);
      offset := next;
    }
    assert ids[..|ids|] == ids;
    assert SaidOf(g, ids) == FilteredSaid(r, symbols, g);
  }

  /** read_doc_entity_names: two stages when the project has stamped entities at all. */
  method ReadEntityNames(r: Rules, index: Index, ghost symbols: seq<Symbol>, g: DocGraph, batch: nat)
    returns (ms: Mentions)
    requires ValidGraph(g) && IsIndex(index, symbols) && batch >= 1
    ensures Collected(ms, if g.entityTable == [] then AllSaid(g) else FilteredSaid(r, symbols, g))
  {
    if g.entityTable != [] {
      ms := TwoStageRead(r, index, symbols, g, batch);
    } else {
      ms := FullScan(g, batch);
    }
  }

  // ------------------------------------------------------- the same set of links

  /** The keys a set of entity names adds to a paragraph. */
  ghost function AcceptedKeys(r: Rules, symbols: seq<Symbol>, names: set<string>): set<KeyWords> {
    set n | n in names && EntityLinkable(r, n) && Candidates(symbols, MatchKey(n)) != [] :: MatchKey(n)
  }

  /** An entity name gives a paragraph this key. */
  ghost predicate Gives(r: Rules, symbols: seq<Symbol>, name: string, k: KeyWords) {
    EntityLinkable(r, name) && MatchKey(name) == k && Candidates(symbols, k) != []
  }

  lemma AddedToken(r: Rules, symbols: seq<Symbol>, keys: seq<KeyWords>, name: string, k: KeyWords)
    ensures k in AddToken(symbols, keys, name, EntityLinkable(r, name)) <==> k in keys || Gives(r, symbols, name, k)
  {
    assert EntityLinkable(r, name) ==> MatchKey(name) != [];
  }

  lemma {:induction false} AddedKey(r: Rules, symbols: seq<Symbol>, keys: seq<KeyWords>, names: seq<string>,
      k: KeyWords)
    ensures k in AddEntities(r, symbols, keys, names) <==>
      k in keys || exists name :: name in names && Gives(r, symbols, name, k)
  {
    if names != [] {
      var n := |names| - 1;
      AddedKey(r, symbols, keys, names[..n], k);
      AddedToken(r, symbols, AddEntities(r, symbols, keys, names[..n]), names[n], k);
      forall name
        ensures name in names <==> name in names[..n] || name == names[n]
      {
        InSnoc(names, name);
      }
    }
  }

  lemma AddEntitiesMeans(r: Rules, symbols: seq<Symbol>, keys: seq<KeyWords>, names: seq<string>)
    ensures Elements(AddEntities(r, symbols, keys, names)) == Elements(keys) + AcceptedKeys(r, symbols, Elements(names))
  {
    forall k
      ensures k in Elements(AddEntities(r, symbols, keys, names)) <==>
        k in Elements(keys) || k in AcceptedKeys(r, symbols, Elements(names))
    {
      AddedKey(r, symbols, keys, names, k);
      assert forall name :: name in names <==> name in Elements(names);
      assert k in AcceptedKeys(r, symbols, Elements(names)) <==>
        exists name :: name in Elements(names) && Gives(r, symbols, name, k);
    }
  }

  /** Keys that only an unstamped entity gives a paragraph. */
  ghost function MissedKeys(r: Rules, symbols: seq<Symbol>, g: DocGraph, a: Anchor): set<KeyWords>
    requires ValidGraph(g)
  {
    AcceptedKeys(r, symbols, set row | row in g.edgeTable && !Stamped(g, row.tail) && g.anchors[row.anchor] == a
      && Counts(Said(g, row)) :: g.names[row.tail])
  }

  /** The full scan gives a paragraph the keys of the two-stage read and those of unstamped
      entities, so nothing more when every mentioned entity is stamped. */
  lemma TwoStageMissesUnstampedOnly(r: Rules, symbols: seq<Symbol>, g: DocGraph, full: Mentions, two: Mentions,
      p: Paragraph)
    requires ValidGraph(g) && Collected(full, AllSaid(g)) && Collected(two, FilteredSaid(r, symbols, g))
    ensures Elements(ParagraphKeys(r, symbols, full, p)) ==
      Elements(ParagraphKeys(r, symbols, two, p)) + MissedKeys(r, symbols, g, AnchorOfParagraph(p))
  {
    var a := AnchorOfParagraph(p);
    var keys := TextKeys(r, symbols, p.text);
    AddEntitiesMeans(r, symbols, keys, NamesAt(full, a));
    AddEntitiesMeans(r, symbols, keys, NamesAt(two, a));
    var f := AcceptedKeys(r, symbols, Elements(NamesAt(full, a)));
    var t := AcceptedKeys(r, symbols, Elements(NamesAt(two, a)));
    forall k
      ensures k in f <==> k in t || k in MissedKeys(r, symbols, g, a)
    {
      if k in f {
        var n :| n in NamesAt(full, a) && EntityLinkable(r, n) && Candidates(symbols, MatchKey(n)) != []
          && MatchKey(n) == k;
        assert (a, n) in AllSaid(g);
        var row :| row in g.edgeTable && Said(g, row) == (a, n);
        if Stamped(g, row.tail) {
          assert (a, n) in FilteredSaid(r, symbols, g);
          assert n in NamesAt(two, a);
        }
      }
      if k in t {
        var n :| n in NamesAt(two, a) && EntityLinkable(r, n) && Candidates(symbols, MatchKey(n)) != []
          && MatchKey(n) == k;
        assert (a, n) in FilteredSaid(r, symbols, g);
        assert (a, n) in AllSaid(g);
        assert n in NamesAt(full, a);
      }
      if k in MissedKeys(r, symbols, g, a) {
        var row :| row in g.edgeTable && g.anchors[row.anchor] == a && Counts(Said(g, row))
          && EntityLinkable(r, g.names[row.tail])
          && Candidates(symbols, MatchKey(g.names[row.tail])) != [] && MatchKey(g.names[row.tail]) == k;
        assert Said(g, row) in AllSaid(g);
        assert g.names[row.tail] in NamesAt(full, a);
      }
    }
  }

  /** With every mentioned entity stamped, both reads lead to the same set of scored links. */
  lemma TwoStageReadGivesSameLinks(r: Rules, symbols: seq<Symbol>, g: DocGraph, full: Mentions, two: Mentions,
      paragraphs: seq<Paragraph>)
    requires ValidGraph(g) && Collected(full, AllSaid(g)) && Collected(two, FilteredSaid(r, symbols, g))
    requires forall row :: row in g.edgeTable ==> Stamped(g, row.tail)
    ensures Elements(ScoredPairs(r, symbols, full, paragraphs)) == Elements(ScoredPairs(r, symbols, two, paragraphs))
  {
    forall i | 0 <= i < |paragraphs|
      ensures SameKeys(r, symbols, full, two, paragraphs[i])
    {
      TwoStageMissesUnstampedOnly(r, symbols, g, full, two, paragraphs[i]);
    }
    OnlyTheKeySetMatters(r, symbols, full, two, paragraphs);
  }
}
