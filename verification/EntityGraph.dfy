/** build_graph_components_from_entities (graphrag_ingest_langextract.py) with merging on. */
module EntityGraph {
  import opened Common

  /** Where a name was found, with its surface form, and how surely. */
  datatype Mention = Mention(span: Option<(int, int)>, surface: string, confidence: Option<real>)
  datatype Entity = Entity(name: string, kind: string, span: Option<(int, int)>, confidence: Option<real>)
  datatype Relation = Relation(source: string, target: string, kind: string)
  datatype Node = Node(id: string, name: string, kind: string, norm: string, mentions: seq<Mention>,
    confidence: Option<real>)
  datatype Edge = Edge(sourceId: string, targetId: string, kind: string)

  /** The name normaliser, the id hash and the project namespace (empty for none). */
  datatype Config = Config(norm: string -> string, uuid: string -> string, project: string)

  datatype Graph = Graph(nodes: Dict<string, Node>, nameIndex: map<string, string>)

  // ----------------------------------------------------------------- node keys

  function Qualify(kind: string, norm: string): string { kind + ":" + (":" + norm) }

  function NodeKey(c: Config, kind: string, norm: string): string {
    if c.project == "" then Qualify(kind, norm) else c.project + ":" + (":" + Qualify(kind, norm))
  }

  ghost predicate NoColon(s: string) { forall i :: 0 <= i < |s| ==> s[i] != ':' }

  /** What aggressive normalisation leaves: letters, digits and a few signs, never a colon. */
  ghost predicate Aggressive(c: Config) { forall s :: NoColon(c.norm(s)) }

  function AfterColon(s: string): string {
    if s == "" || s[|s| - 1] == ':' then "" else AfterColon(s[..|s| - 1]) + [s[|s| - 1]]
  }

  lemma {:induction false} AfterColonIs(prefix: string, norm: string)
    requires NoColon(norm) && prefix != "" && prefix[|prefix| - 1] == ':'
    ensures AfterColon(prefix + norm) == norm
  {
    var s := prefix + norm;
    if norm == "" {
      assert s == prefix;
    } else {
      var n := |norm| - 1;
      AfterColonIs(prefix, norm[..n]);
      assert s[..|s| - 1] == prefix + norm[..n] && s[|s| - 1] == norm[n];
      assert norm == norm[..n] + [norm[n]];
    }
  }

  lemma KeyTail(c: Config, kind: string, norm: string)
    requires NoColon(norm)
    ensures AfterColon(NodeKey(c, kind, norm)) == norm
  {
    if c.project == "" {
      AfterColonIs(kind + ":" + ":", norm);
      assert NodeKey(c, kind, norm) == kind + ":" + ":" + norm;
    } else {
      AfterColonIs(c.project + ":" + ":" + kind + ":" + ":", norm);
      assert NodeKey(c, kind, norm) == c.project + ":" + ":" + kind + ":" + ":" + norm;
    }
  }

  /** A key gives away the normalised name it was made from, whatever the entity type contains. */
  lemma KeyDeterminesName(c: Config, kind: string, norm: string, kind': string, norm': string)
    requires NoColon(norm) && NoColon(norm') && NodeKey(c, kind, norm) == NodeKey(c, kind', norm')
    ensures norm == norm'
  {
    KeyTail(c, kind, norm);
    KeyTail(c, kind', norm');
  }

  /** With colons in names two different names can share a key. */
  lemma ColonsCollide(c: Config, a: string, b: string)
    requires c.project == ""
    ensures NodeKey(c, "UNKNOWN" + ":" + (":" + a), b) == NodeKey(c, "UNKNOWN", a + ":" + (":" + b))
  {
  }

  // -------------------------------------------------------------------- entities

  function MentionOf(e: Entity): Mention { Mention(e.span, if e.span.Some? then e.name else "", e.confidence) }

  /** An entity without position and confidence leaves no mention. */
  function MentionsFrom(e: Entity): seq<Mention> {
    if e.span.None? && e.confidence.None? then [] else [MentionOf(e)]
  }

  function Higher(a: Option<real>, b: Option<real>): Option<real> {
    if b.None? then a else if a.None? || b.value > a.value then b else a
  }

  function KindOf(e: Entity): string { if e.kind == "" then "UNKNOWN" else e.kind }

  predicate Accepted(c: Config, e: Entity) { e.name != "" && c.norm(e.name) != "" }

  function NewNode(c: Config, e: Entity): Node {
    var norm := c.norm(e.name);
    Node(c.uuid(NodeKey(c, KindOf(e), norm)), e.name, KindOf(e), norm, MentionsFrom(e), e.confidence)
  }

  function Merge(n: Node, e: Entity): Node {
    n.(name := if |e.name| > |n.name| then e.name else n.name,
       mentions := n.mentions + MentionsFrom(e),
       confidence := Higher(n.confidence, e.confidence))
  }

  function SetDefault(m: map<string, string>, k: string, v: string): map<string, string> {
    if k in m then m else m[k := v]
  }

  function AddEntity(c: Config, g: Graph, e: Entity): Graph {
    if !Accepted(c, e) then g
    else
      var norm := c.norm(e.name);
      var key := NodeKey(c, KindOf(e), norm);
      Graph(Put(g.nodes, key, if key in g.nodes.at then Merge(g.nodes.at[key], e) else NewNode(c, e)),
            SetDefault(g.nameIndex, norm, key))
  }

  function EntityGraphOf(c: Config, es: seq<Entity>): Graph {
    if es == [] then Graph(EmptyDict(), map[]) else AddEntity(c, EntityGraphOf(c, es[..|es| - 1]), es[|es| - 1])
  }

  // ------------------------------------------------------------------- relations

  function UnknownNode(c: Config, name: string): Node {
    Node(c.uuid(NodeKey(c, "UNKNOWN", c.norm(name))), name, "UNKNOWN", c.norm(name), [], None)
  }

  /** Find an endpoint by name, creating a node for an unknown one. */
  function Ensure(c: Config, g: Graph, name: string): Graph {
    var norm := c.norm(name);
    if norm in g.nameIndex then g
    else
      var key := NodeKey(c, "UNKNOWN", norm);
      Graph(Put(g.nodes, key, UnknownNode(c, name)), g.nameIndex[norm := key])
  }

  predicate Usable(c: Config, r: Relation) {
    r.source != "" && r.target != "" && c.norm(r.source) != "" && c.norm(r.target) != ""
  }

  // ------------------------------------------------------------------ invariants

  function MaxConfidence(ms: seq<Mention>): Option<real> {
    if ms == [] then None else Higher(MaxConfidence(ms[..|ms| - 1]), ms[|ms| - 1].confidence)
  }

  /** A node sits under its own key, carries that key's id and the best confidence of its mentions. */
  ghost predicate GoodNode(c: Config, k: string, n: Node) {
    k == NodeKey(c, n.kind, n.norm) && n.id == c.uuid(k) && NoColon(n.norm) && n.confidence == MaxConfidence(n.mentions)
  }

  ghost predicate Indexed(g: Graph) {
    && (forall n :: n in g.nameIndex ==> g.nameIndex[n] in g.nodes.at && g.nodes.at[g.nameIndex[n]].norm == n)
    && (forall k :: k in g.nodes.at ==> g.nodes.at[k].norm in g.nameIndex)
  }

  ghost predicate ValidGraph(c: Config, g: Graph) {
    ValidDict(g.nodes) && Indexed(g) && forall k :: k in g.nodes.at ==> GoodNode(c, k, g.nodes.at[k])
  }

  ghost predicate Sound(g: Graph, good: (string, Node) -> bool) {
    ValidDict(g.nodes) && Indexed(g) && forall k :: k in g.nodes.at ==> good(k, g.nodes.at[k])
  }

  /** Writing a good node under a new key, or over one with the same normalised name. */
  lemma PutKeeps(g: Graph, good: (string, Node) -> bool, key: string, node: Node)
    requires Sound(g, good) && good(key, node) && (key in g.nodes.at ==> g.nodes.at[key].norm == node.norm)
    ensures Sound(Graph(Put(g.nodes, key, node), SetDefault(g.nameIndex, node.norm, key)), good)
  {
    PutKeepsIndex(g, key, node);
  }

  lemma PutKeepsIndex(g: Graph, key: string, node: Node)
    requires Indexed(g) && (key in g.nodes.at ==> g.nodes.at[key].norm == node.norm)
    ensures Indexed(Graph(Put(g.nodes, key, node), SetDefault(g.nameIndex, node.norm, key)))
  {
  }

  lemma MaxConfidenceAppend(ms: seq<Mention>, e: Entity)
    ensures MaxConfidence(ms + MentionsFrom(e)) == Higher(MaxConfidence(ms), e.confidence)
  {
    if MentionsFrom(e) == [] {
      assert ms + [] == ms;
    } else {
      var all := ms + MentionsFrom(e);
      assert all[..|all| - 1] == ms;
    }
  }

  lemma EntityNodeIsGood(c: Config, g: Graph, e: Entity, key: string, node: Node)
    requires Aggressive(c) && ValidGraph(c, g) && key == NodeKey(c, KindOf(e), c.norm(e.name))
    requires node == if key in g.nodes.at then Merge(g.nodes.at[key], e) else NewNode(c, e)
    ensures GoodNode(c, key, node) && node.norm == c.norm(e.name)
    ensures key in g.nodes.at ==> g.nodes.at[key].norm == node.norm
  {
    assert [] + MentionsFrom(e) == MentionsFrom(e);
    MaxConfidenceAppend([], e);
    if key in g.nodes.at {
      var n := g.nodes.at[key];
      assert GoodNode(c, key, n);
      MaxConfidenceAppend(n.mentions, e);
      KeyDeterminesName(c, n.kind, n.norm, KindOf(e), c.norm(e.name));
    }
  }

  lemma AddEntityKeeps(c: Config, g: Graph, e: Entity)
    requires Aggressive(c) && ValidGraph(c, g)
    ensures ValidGraph(c, AddEntity(c, g, e))
  {
    if Accepted(c, e) {
      var key := NodeKey(c, KindOf(e), c.norm(e.name));
      var node := if key in g.nodes.at then Merge(g.nodes.at[key], e) else NewNode(c, e);
      EntityNodeIsGood(c, g, e, key, node);
      PutKeeps(g, (k, n) => GoodNode(c, k, n), key, node);
    }
  }

  /** A node created for a relation never replaces one that is there. */
  lemma EnsureIsNew(c: Config, g: Graph, name: string)
    requires Aggressive(c) && ValidGraph(c, g)
    ensures c.norm(name) !in g.nameIndex ==> NodeKey(c, "UNKNOWN", c.norm(name)) !in g.nodes.at
  {
    var key := NodeKey(c, "UNKNOWN", c.norm(name));
    if key in g.nodes.at {
      var n := g.nodes.at[key];
      assert GoodNode(c, key, n);
      KeyDeterminesName(c, n.kind, n.norm, "UNKNOWN", c.norm(name));
    }
  }

  /** Old nodes stay as they are; added ones are unknown and have no mentions. */
  ghost predicate Extends(g: Graph, g': Graph) {
    && (forall k :: k in g.nodes.at ==> k in g'.nodes.at && g'.nodes.at[k] == g.nodes.at[k])
    && (forall k :: k in g'.nodes.at && k !in g.nodes.at ==>
      g'.nodes.at[k].kind == "UNKNOWN" && g'.nodes.at[k].mentions == [])
  }

  lemma EnsureExtends(g: Graph, key: string, node: Node)
    requires key !in g.nodes.at && node.kind == "UNKNOWN" && node.mentions == []
    ensures Extends(g, Graph(Put(g.nodes, key, node), g.nameIndex[node.norm := key]))
  {
  }

  lemma EnsureKeeps(c: Config, g: Graph, name: string)
    requires Aggressive(c) && ValidGraph(c, g)
    ensures ValidGraph(c, Ensure(c, g, name)) && Extends(g, Ensure(c, g, name))
    ensures c.norm(name) in Ensure(c, g, name).nameIndex
  {
    if c.norm(name) !in g.nameIndex {
      var key := NodeKey(c, "UNKNOWN", c.norm(name));
      var node := UnknownNode(c, name);
      EnsureIsNew(c, g, name);
      assert GoodNode(c, key, node);
      PutKeeps(g, (k, n) => GoodNode(c, k, n), key, node);
      EnsureExtends(g, key, node);
    }
  }

  lemma ExtendsTransitive(a: Graph, b: Graph, d: Graph)
    requires Extends(a, b) && Extends(b, d)
    ensures Extends(a, d)
  {
  }

  lemma {:induction false} EntityGraphValid(c: Config, es: seq<Entity>)
    requires Aggressive(c)
    ensures ValidGraph(c, EntityGraphOf(c, es))
  {
    if es != [] {
      EntityGraphValid(c, es[..|es| - 1]);
      AddEntityKeeps(c, EntityGraphOf(c, es[..|es| - 1]), es[|es| - 1]);
    }
  }

  // ---------------------------------------------------------- mentions conserved

  ghost function AllMentions(nodes: seq<Node>): multiset<Mention> {
    if nodes == [] then multiset{} else AllMentions(nodes[..|nodes| - 1]) + multiset(nodes[|nodes| - 1].mentions)
  }

  ghost function EntityMentions(c: Config, es: seq<Entity>): multiset<Mention> {
    if es == [] then multiset{}
    else
      var init, e := EntityMentions(c, es[..|es| - 1]), es[|es| - 1];
      if Accepted(c, e) then init + multiset(MentionsFrom(e)) else init
  }

  lemma {:induction false} MentionsReplaced(nodes: seq<Node>, i: nat, n: Node, added: seq<Mention>)
    requires i < |nodes| && n.mentions == nodes[i].mentions + added
    ensures AllMentions(nodes[i := n]) == AllMentions(nodes) + multiset(added)
  {
    var m := |nodes| - 1;
    if i < m {
      MentionsReplaced(nodes[..m], i, n, added);
      assert nodes[i := n][..m] == nodes[..m][i := n];
    } else {
      assert nodes[i := n][..m] == nodes[..m];
      assert multiset(n.mentions) == multiset(nodes[i].mentions) + multiset(added);
    }
  }

  lemma NewMentions(nodes: seq<Node>, n: Node)
    ensures AllMentions(nodes + [n]) == AllMentions(nodes) + multiset(n.mentions)
  {
    assert (nodes + [n])[..|nodes|] == nodes;
  }

  lemma PutMentions(d: Dict<string, Node>, k: string, n: Node, added: seq<Mention>)
    requires ValidDict(d) && n.mentions == (if k in d.at then d.at[k].mentions else []) + added
    ensures AllMentions(Values(Put(d, k, n))) == AllMentions(Values(d)) + multiset(added)
  {
    if k in d.at {
      var i := KeyPosition(d, k);
      assert Values(Put(d, k, n)) == Values(d)[i := n];
      MentionsReplaced(Values(d), i, n, added);
    } else {
      assert Values(Put(d, k, n)) == Values(d) + [n] && n.mentions == added;
      NewMentions(Values(d), n);
    }
  }

  function KeyFor(c: Config, e: Entity): string { NodeKey(c, KindOf(e), c.norm(e.name)) }

  /** The mentions of the accepted entities that belong under one key, in reading order. */
  function MentionsUnder(c: Config, es: seq<Entity>, k: string): seq<Mention> {
    if es == [] then []
    else
      var init, e := MentionsUnder(c, es[..|es| - 1], k), es[|es| - 1];
      if Accepted(c, e) && KeyFor(c, e) == k then init + MentionsFrom(e) else init
  }

  /** Each node holds exactly the mentions of its own entities. */
  lemma {:induction false} MentionsStayWithTheirNode(c: Config, es: seq<Entity>, k: string)
    ensures var g := EntityGraphOf(c, es);
      (if k in g.nodes.at then g.nodes.at[k].mentions else []) == MentionsUnder(c, es, k)
    ensures k in EntityGraphOf(c, es).nodes.at <==>
      exists i :: 0 <= i < |es| && Accepted(c, es[i]) && KeyFor(c, es[i]) == k
  {
    if es != [] {
      var n := |es| - 1;
      MentionsStayWithTheirNode(c, es[..n], k);
      if k in EntityGraphOf(c, es[..n]).nodes.at {
        var i :| 0 <= i < n && Accepted(c, es[..n][i]) && KeyFor(c, es[..n][i]) == k;
        assert es[i] == es[..n][i];
      }
      forall i | 0 <= i < n && Accepted(c, es[i]) && KeyFor(c, es[i]) == k
        ensures k in EntityGraphOf(c, es[..n]).nodes.at
      {
        assert es[..n][i] == es[i];
      }
    }
  }

  /** Every mention of every accepted entity is in exactly one node, and nothing else is. */
  lemma {:induction false} MentionsConserved(c: Config, es: seq<Entity>)
    requires Aggressive(c)
    ensures ValidDict(EntityGraphOf(c, es).nodes)
    ensures AllMentions(Values(EntityGraphOf(c, es).nodes)) == EntityMentions(c, es)
  {
    EntityGraphValid(c, es);
    if es != [] {
      var g, e := EntityGraphOf(c, es[..|es| - 1]), es[|es| - 1];
      MentionsConserved(c, es[..|es| - 1]);
      if Accepted(c, e) {
        var key := NodeKey(c, KindOf(e), c.norm(e.name));
        var node := if key in g.nodes.at then Merge(g.nodes.at[key], e) else NewNode(c, e);
        PutMentions(g.nodes, key, node, MentionsFrom(e));
      }
    }
  }

  // -------------------------------------------------------------------- the loops

  /** The id belongs to a node with this normalised name. */
  ghost predicate Named(g: Graph, id: string, norm: string) {
    exists k :: k in g.nodes.at && g.nodes.at[k].id == id && g.nodes.at[k].norm == norm
  }

  /** The edge joins the nodes a relation names, in that direction. */
  ghost predicate EdgeFor(c: Config, g: Graph, r: Relation, e: Edge) {
    && Named(g, e.sourceId, c.norm(r.source)) && Named(g, e.targetId, c.norm(r.target))
    && e.kind == if r.kind == "" then "RELATED" else r.kind
  }

  function UsableOf(c: Config, rs: seq<Relation>): seq<Relation> {
    if rs == [] then []
    else UsableOf(c, rs[..|rs| - 1]) + if Usable(c, rs[|rs| - 1]) then [rs[|rs| - 1]] else []
  }

  ghost predicate EdgesFor(c: Config, g: Graph, rs: seq<Relation>, edges: seq<Edge>) {
    |edges| == |rs| && forall i :: 0 <= i < |rs| ==> EdgeFor(c, g, rs[i], edges[i])
  }

  lemma ExtendsKeepsEdges(c: Config, rs: seq<Relation>, edges: seq<Edge>, g: Graph, g': Graph)
    requires EdgesFor(c, g, rs, edges) && Extends(g, g')
    ensures EdgesFor(c, g', rs, edges)
  {
    forall id, norm | Named(g, id, norm)
      ensures Named(g', id, norm)
    {
      var k :| k in g.nodes.at && g.nodes.at[k].id == id && g.nodes.at[k].norm == norm;
      assert k in g'.nodes.at;
    }
  }

  lemma OneMoreEdge(c: Config, g: Graph, rs: seq<Relation>, edges: seq<Edge>, r: Relation, e: Edge)
    requires EdgesFor(c, g, rs, edges) && EdgeFor(c, g, r, e)
    ensures EdgesFor(c, g, rs + [r], edges + [e])
  {
  }

  lemma UsableStep(c: Config, rs: seq<Relation>, i: nat)
    requires i < |rs|
    ensures UsableOf(c, rs[..i + 1]) == UsableOf(c, rs[..i]) + if Usable(c, rs[i]) then [rs[i]] else []
  {
    assert rs[..i + 1][..i] == rs[..i];
  }

  /** Mentions stay conserved while relations add nodes. */
  lemma EnsureMentions(c: Config, g: Graph, name: string)
    requires Aggressive(c) && ValidGraph(c, g)
    ensures ValidGraph(c, Ensure(c, g, name))
    ensures AllMentions(Values(Ensure(c, g, name).nodes)) == AllMentions(Values(g.nodes))
  {
    EnsureKeeps(c, g, name);
    if c.norm(name) !in g.nameIndex {
      EnsureIsNew(c, g, name);
      PutMentions(g.nodes, NodeKey(c, "UNKNOWN", c.norm(name)), UnknownNode(c, name), []);
    }
  }

  method AddRelation(c: Config, g: Graph, r: Relation) returns (g': Graph, edge: Edge)
    requires Aggressive(c) && ValidGraph(c, g)
    ensures ValidGraph(c, g') && Extends(g, g')
    ensures AllMentions(Values(g'.nodes)) == AllMentions(Values(g.nodes))
    ensures EdgeFor(c, g', r, edge)
  {
    var g1 := Ensure(c, g, r.source);
    EnsureKeeps(c, g, r.source);
    EnsureMentions(c, g, r.source);
    g' := Ensure(c, g1, r.target);
    EnsureKeeps(c, g1, r.target);
    EnsureMentions(c, g1, r.target);
    ExtendsTransitive(g, g1, g');
    var source, target := g1.nameIndex[c.norm(r.source)], g'.nameIndex[c.norm(r.target)];
    edge := Edge(g1.nodes.at[source].id, g'.nodes.at[target].id, if r.kind == "" then "RELATED" else r.kind);
    assert source in g'.nodes.at && g'.nodes.at[source] == g1.nodes.at[source];
  }

  method AddRelations(c: Config, start: Graph, rs: seq<Relation>) returns (g: Graph, edges: seq<Edge>)
    requires Aggressive(c) && ValidGraph(c, start)
    ensures ValidGraph(c, g) && Extends(start, g) && EdgesFor(c, g, UsableOf(c, rs), edges)
    ensures AllMentions(Values(g.nodes)) == AllMentions(Values(start.nodes))
  {
    g, edges := start, [];
    for i := 0 to |rs|
      invariant ValidGraph(c, g) && Extends(start, g) && EdgesFor(c, g, UsableOf(c, rs[..i]), edges)
      invariant AllMentions(Values(g.nodes)) == AllMentions(Values(start.nodes))
    {
      UsableStep(c, rs, i);
      if Usable(c, rs[i]) {
        var g', edge := AddRelation(c, g, rs[i]);
        ExtendsKeepsEdges(c, UsableOf(c, rs[..i]), edges, g, g');
        OneMoreEdge(c, g', UsableOf(c, rs[..i]), edges, rs[i], edge);
        ExtendsTransitive(start, g, g');
        g, edges := g', edges + [edge];
      }
    }
    assert rs[..|rs|] == rs;
  }

  /** Nodes and relations of a text: every relation becomes an edge between nodes of the result,
      the entities' nodes are untouched by relations, mentions are conserved and each confidence
      is the best of its mentions. */
  method BuildGraph(c: Config, es: seq<Entity>, rs: seq<Relation>) returns (g: Graph, edges: seq<Edge>)
    requires Aggressive(c)
    ensures ValidGraph(c, g) && EdgesFor(c, g, UsableOf(c, rs), edges)
    ensures Extends(EntityGraphOf(c, es), g)
    ensures AllMentions(Values(g.nodes)) == EntityMentions(c, es)
  {
    g := Graph(EmptyDict(), map[]);
    for i := 0 to |es|
      invariant g == EntityGraphOf(c, es[..i])
    {
      assert es[..i + 1][..i] == es[..i];
      g := AddEntity(c, g, es[i]);
    }
    assert es[..|es|] == es;
    EntityGraphValid(c, es);
    MentionsConserved(c, es);
    g, edges := AddRelations(c, g, rs);
  }
}
