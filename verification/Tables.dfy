/** links.db: documents, paragraphs, symbols and links with surrogate ids, and the join that
    reads records back.  A row's uid is its position, as SQLite hands out rowids. */
module Tables {
  import opened Common
  import opened Json
  import opened Keys
  import opened Records

  datatype ParaRow = ParaRow(paraKey: string, docUid: nat, paraJson: string)
  datatype SymRow = SymRow(symKey: string, path: string, name: string, start: Option<int>, end: Option<int>, kind: Kind)
  datatype LinkRow = LinkRow(
    paraUid: nat, symUid: nat, docUid: nat,
    projectId: string, relation: string, provenance: string, score: real, status: Status,
    createdAt: Option<nat>, staledAt: Option<nat>, docSha: Option<string>, codeSha: Option<string>)

  datatype Tables = Tables(docs: seq<string>, paras: seq<ParaRow>, syms: seq<SymRow>, links: seq<LinkRow>)

  const EMPTY := Tables([], [], [], [])

  function KindText(k: Kind): string { if k.Symbol? then "symbol" else "endpoint" }

  function ParaKeyOf(k: Key): string { ParaKey(k.docId, Dumps(k.paraId)) }

  function StartOf(lines: Lines): Option<int> { if lines.Some? then lines.value.0 else None }
  function EndOf(lines: Lines): Option<int> { if lines.Some? then lines.value.1 else None }

  function SymRowOf(k: Key): SymRow {
    SymRow(SymKey(k.path, k.name, StartOf(k.lines), EndOf(k.lines), KindText(k.kind)),
           k.path, k.name, StartOf(k.lines), EndOf(k.lines), k.kind)
  }

  // ---------------------------------------------------------------- invariants

  ghost predicate ValidParas(docs: seq<string>, paras: seq<ParaRow>) {
    && (forall i :: 0 <= i < |paras| ==>
      paras[i].docUid < |docs| && paras[i].paraKey == ParaKey(docs[paras[i].docUid], paras[i].paraJson))
    && (forall i, j :: 0 <= i < j < |paras| ==> paras[i].paraKey != paras[j].paraKey)
  }

  ghost predicate Keyed(s: SymRow) { s.symKey == SymKey(s.path, s.name, s.start, s.end, KindText(s.kind)) }

  ghost predicate ValidSyms(syms: seq<SymRow>) {
    && (forall i :: 0 <= i < |syms| ==> Keyed(syms[i]))
    && (forall i, j :: 0 <= i < j < |syms| ==> syms[i].symKey != syms[j].symKey)
  }

  predicate LinkInRange(t: Tables, l: LinkRow) {
    l.paraUid < |t.paras| && l.symUid < |t.syms| && l.docUid < |t.docs|
  }

  ghost predicate ValidLinks(t: Tables) {
    && (forall i :: 0 <= i < |t.links| ==> LinkInRange(t, t.links[i]))
    && (forall i, j :: 0 <= i < j < |t.links| ==>
      (t.links[i].paraUid, t.links[i].symUid) != (t.links[j].paraUid, t.links[j].symUid))
  }

  /** Unique keys and valid foreign keys. */
  ghost predicate ValidTables(t: Tables) {
    Distinct(t.docs) && ValidParas(t.docs, t.paras) && ValidSyms(t.syms) && ValidLinks(t)
  }

  // ---------------------------------------------------------------------- join

  /** _row_to_record: a line span is shown only when it has a start. */
  function ShownLines(s: SymRow): Lines { if s.start.Some? then Some((s.start, s.end)) else None }

  function ShownPara(json: string): Json {
    match Loads(json)
    case Some(v) => v
    case None => Str(json)
  }

  function Join(t: Tables, l: LinkRow): Record
    requires LinkInRange(t, l)
  {
    var s := t.syms[l.symUid];
    Record(Key(t.docs[l.docUid], ShownPara(t.paras[l.paraUid].paraJson), s.path, s.name, ShownLines(s), s.kind),
           l.projectId, l.relation, l.provenance, l.score, l.status, l.createdAt, l.staledAt, l.docSha, l.codeSha)
  }

  function Joined(t: Tables): (rs: seq<Record>)
    requires ValidTables(t)
    ensures |rs| == |t.links|
  {
    seq(|t.links|, i requires 0 <= i < |t.links| => Join(t, t.links[i]))
  }

  /** A span that the join shows as it was logged. */
  ghost predicate Canonical(lines: Lines) { lines.Some? ==> lines.value.0.Some? }

  ghost predicate Clean(k: Key) { NulFree(k.path) && WellFormed(k.paraId) }

  ghost predicate AllClean(rs: seq<Record>) { forall i :: 0 <= i < |rs| ==> Clean(rs[i].key) }

  /** The tables see no difference between absent lines and two missing numbers. */
  function NormLines(lines: Lines): Lines { if lines == Some((None, None)) then None else lines }

  function Norm(r: Record): Record { r.(key := r.key.(lines := NormLines(r.key.lines))) }

  function NormAll(rs: seq<Record>): (s: seq<Record>)
    ensures |s| == |rs|
  {
    seq(|rs|, i requires 0 <= i < |rs| => Norm(rs[i]))
  }

  /** What the join shows of a record: its span only when it has a start. */
  function Shown(r: Record): Record {
    r.(key := r.key.(lines := if StartOf(r.key.lines).Some? then r.key.lines else None))
  }

  function ShownAll(rs: seq<Record>): (s: seq<Record>)
    ensures |s| == |rs|
  {
    seq(|rs|, i requires 0 <= i < |rs| => Shown(rs[i]))
  }

  /** A key that its table rows identify. */
  ghost predicate Storable(k: Key) { Clean(k) && NormLines(k.lines) == k.lines }

  ghost predicate AllStorable(rs: seq<Record>) { forall i :: 0 <= i < |rs| ==> Storable(rs[i].key) }

  lemma NormIsStorable(rs: seq<Record>)
    requires AllClean(rs)
    ensures AllStorable(NormAll(rs))
  {
  }

  // -------------------------------------------------------------------- upsert

  function Find<T>(s: seq<T>, p: T -> bool): (i: nat)
    ensures i <= |s| && (i < |s| ==> p(s[i]))
    ensures forall j :: 0 <= j < i ==> !p(s[j])
  {
    if s == [] then 0
    else
      var n := |s| - 1;
      var i := Find(s[..n], p);
      if i < n || p(s[n]) then i else |s|
  }

  function DocUid(t: Tables, id: string): nat { Find(t.docs, d => d == id) }
  function ParaUid(t: Tables, key: string): nat { Find(t.paras, (p: ParaRow) => p.paraKey == key) }
  function SymUid(t: Tables, key: string): nat { Find(t.syms, (s: SymRow) => s.symKey == key) }

  /** The rows a link refers to are all there. */
  predicate Present(t: Tables, k: Key) {
    DocUid(t, k.docId) < |t.docs| && ParaUid(t, ParaKeyOf(k)) < |t.paras| && SymUid(t, SymRowOf(k).symKey) < |t.syms|
  }

  function LinkRowOf(t: Tables, r: Record): LinkRow {
    LinkRow(ParaUid(t, ParaKeyOf(r.key)), SymUid(t, SymRowOf(r.key).symKey), DocUid(t, r.key.docId),
            r.projectId, r.relation, r.provenance, r.score, r.status, r.createdAt, r.staledAt, r.docSha, r.codeSha)
  }

  /** Where the row with the same paragraph and symbol is, if there is one. */
  function LinkPos(links: seq<LinkRow>, row: LinkRow): (i: nat) {
    Find(links, (l: LinkRow) => l.paraUid == row.paraUid && l.symUid == row.symUid)
  }

  function PutRow(links: seq<LinkRow>, row: LinkRow): seq<LinkRow> {
    var i := LinkPos(links, row);
    if i < |links| then links[i := row] else links + [row]
  }

  function PutLink(t: Tables, r: Record): Tables { t.(links := PutRow(t.links, LinkRowOf(t, r))) }

  ghost predicate CleanRows(t: Tables) {
    && (forall i :: 0 <= i < |t.paras| ==> NulFree(t.paras[i].paraJson))
    && (forall i :: 0 <= i < |t.syms| ==> NulFree(t.syms[i].path))
  }

  ghost predicate Holds(t: Tables, r: Record, l: LinkRow) {
    Storable(r.key) && Present(t, r.key) && l == LinkRowOf(t, r)
  }

  /** Every link row stands for the record the view holds at the same position. */
  ghost predicate Represents(t: Tables, d: View) {
    && ValidTables(t) && CleanRows(t) && ValidDict(d) && |t.links| == |d.keys|
    && forall i :: 0 <= i < |d.keys| ==> d.at[d.keys[i]].key == d.keys[i] && Holds(t, d.at[d.keys[i]], t.links[i])
  }

  lemma KindTextMeans(a: Kind, b: Kind)
    ensures NulFree(KindText(a)) && (KindText(a) == KindText(b) <==> a == b)
  {
  }

  /** The symbol row a key refers to holds its path, name, lines and kind. */
  lemma SymRowReadsBack(t: Tables, k: Key)
    requires ValidTables(t) && CleanRows(t) && NulFree(k.path) && SymUid(t, SymRowOf(k).symKey) < |t.syms|
    ensures t.syms[SymUid(t, SymRowOf(k).symKey)] == SymRowOf(k)
  {
    var s := t.syms[SymUid(t, SymRowOf(k).symKey)];
    assert Keyed(s);
    KindTextMeans(s.kind, k.kind);
    KindTextMeans(k.kind, s.kind);
    SymKeyInjective(s.path, s.name, s.start, s.end, KindText(s.kind),
                    k.path, k.name, StartOf(k.lines), EndOf(k.lines), KindText(k.kind));
  }

  lemma ParaRowReadsBack(t: Tables, k: Key)
    requires ValidTables(t) && CleanRows(t) && WellFormed(k.paraId) && ParaUid(t, ParaKeyOf(k)) < |t.paras|
    ensures ShownPara(t.paras[ParaUid(t, ParaKeyOf(k))].paraJson) == k.paraId
  {
    var p := t.paras[ParaUid(t, ParaKeyOf(k))];
    DumpsNulFree(k.paraId);
    LastPart(t.docs[p.docUid], p.paraJson, k.docId, Dumps(k.paraId));
    LoadsDumps(k.paraId);
  }

  /** The row of a record joins back to what is shown of that record. */
  lemma JoinReadsBack(t: Tables, r: Record)
    requires ValidTables(t) && CleanRows(t) && Present(t, r.key) && Clean(r.key)
    ensures LinkInRange(t, LinkRowOf(t, r)) && Join(t, LinkRowOf(t, r)) == Shown(r)
  {
    SymRowReadsBack(t, r.key);
    ParaRowReadsBack(t, r.key);
  }

  /** So the four-table join, in rowid order, shows the view. */
  lemma JoinIsView(t: Tables, d: View)
    requires Represents(t, d)
    ensures Joined(t) == ShownAll(Values(d))
  {
    forall i | 0 <= i < |d.keys|
      ensures Joined(t)[i] == Shown(Values(d)[i])
    {
      JoinReadsBack(t, d.at[d.keys[i]]);
    }
  }

  /** Two storable keys share a paragraph uid and a symbol uid only if they are equal. */
  lemma UidsIdentify(t: Tables, r: Record, q: Record)
    requires ValidTables(t) && CleanRows(t)
    requires Storable(r.key) && Storable(q.key) && Present(t, r.key) && Present(t, q.key)
    requires LinkRowOf(t, r).paraUid == LinkRowOf(t, q).paraUid && LinkRowOf(t, r).symUid == LinkRowOf(t, q).symUid
    ensures r.key == q.key
  {
    ParaKeyInjective(r.key.docId, r.key.paraId, q.key.docId, q.key.paraId);
    SymRowReadsBack(t, r.key);
    SymRowReadsBack(t, q.key);
  }

  lemma PutLinkValid(t: Tables, r: Record)
    requires ValidTables(t) && Present(t, r.key)
    ensures ValidTables(PutLink(t, r)) && (CleanRows(t) ==> CleanRows(PutLink(t, r)))
  {
    var t', row := PutLink(t, r), LinkRowOf(t, r);
    assert forall l :: LinkInRange(t', l) <==> LinkInRange(t, l);
    assert LinkInRange(t, row);
    var i := LinkPos(t.links, row);
    assert i < |t.links| ==> t.links[i].paraUid == row.paraUid && t.links[i].symUid == row.symUid;
  }

  /** The surrogate ids depend on the three dimension tables only. */
  lemma SameDimensions(t: Tables, t': Tables, r: Record, l: LinkRow)
    requires t'.docs == t.docs && t'.paras == t.paras && t'.syms == t.syms
    ensures LinkRowOf(t', r) == LinkRowOf(t, r) && (Present(t', r.key) <==> Present(t, r.key))
    ensures Holds(t', r, l) <==> Holds(t, r, l)
  {
  }

  lemma LinkFound(t: Tables, d: View, r: Record)
    requires Represents(t, d) && Storable(r.key) && Present(t, r.key)
    ensures var i := LinkPos(t.links, LinkRowOf(t, r));
      if i < |d.keys| then d.keys[i] == r.key else r.key !in d.at
  {
    var i := LinkPos(t.links, LinkRowOf(t, r));
    if i < |t.links| {
      assert Holds(t, d.at[d.keys[i]], t.links[i]);
      UidsIdentify(t, d.at[d.keys[i]], r);
    } else if r.key in d.at {
      var j := KeyPosition(d, r.key);
      assert false;
    }
  }

  /** Position by position, the new rows and the new dictionary are the old ones or the new record. */
  lemma PutRowStep(links: seq<LinkRow>, row: LinkRow, d: View, r: Record, j: nat)
    requires ValidDict(d) && |links| == |d.keys|
    requires var i := LinkPos(links, row); if i < |d.keys| then d.keys[i] == r.key else r.key !in d.at
    requires j < |Put(d, r.key, r).keys|
    ensures |PutRow(links, row)| == |Put(d, r.key, r).keys|
    ensures var d', l := Put(d, r.key, r), PutRow(links, row)[j];
      if d'.keys[j] == r.key then d'.at[d'.keys[j]] == r && l == row
      else j < |d.keys| && d'.keys[j] == d.keys[j] && d'.at[d'.keys[j]] == d.at[d.keys[j]] && l == links[j]
  {
  }

  lemma PutLinkHolds(t: Tables, d: View, r: Record, j: nat)
    requires Represents(t, d) && Storable(r.key) && Present(t, r.key)
    requires j < |Put(d, r.key, r).keys|
    ensures var t', d' := PutLink(t, r), Put(d, r.key, r);
      |t'.links| == |d'.keys| && d'.at[d'.keys[j]].key == d'.keys[j] && Holds(t', d'.at[d'.keys[j]], t'.links[j])
  {
    var t', d' := PutLink(t, r), Put(d, r.key, r);
    LinkFound(t, d, r);
    PutRowStep(t.links, LinkRowOf(t, r), d, r, j);
    SameDimensions(t, t', d'.at[d'.keys[j]], t'.links[j]);
  }

  /** Writing one link row replaces or appends exactly as the dictionary does. */
  lemma PutLinkRepresents(t: Tables, d: View, r: Record)
    requires Represents(t, d) && Storable(r.key) && Present(t, r.key)
    ensures Represents(PutLink(t, r), Put(d, r.key, r))
  {
    var t', d' := PutLink(t, r), Put(d, r.key, r);
    PutLinkValid(t, r);
    PutLinkLength(t, d, r);
    forall j | 0 <= j < |d'.keys|
      ensures d'.at[d'.keys[j]].key == d'.keys[j] && Holds(t', d'.at[d'.keys[j]], t'.links[j])
    {
      PutLinkHolds(t, d, r, j);
    }
  }

  lemma PutLinkLength(t: Tables, d: View, r: Record)
    requires Represents(t, d) && Storable(r.key) && Present(t, r.key)
    ensures ValidDict(Put(d, r.key, r)) && |PutLink(t, r).links| == |Put(d, r.key, r).keys|
  {
    LinkFound(t, d, r);
  }

  // -------------------------------------------------- the whole batch

  lemma {:induction false} FindExtends<T>(s: seq<T>, more: seq<T>, p: T -> bool)
    requires Find(s, p) < |s|
    ensures Find(s + more, p) == Find(s, p)
  {
    var i, j := Find(s, p), Find(s + more, p);
    assert (s + more)[i] == s[i];
    assert j <= i;
    assert (s + more)[j] == s[j];
  }

  ghost predicate Grows(t: Tables, t': Tables) {
    t.docs <= t'.docs && t.paras <= t'.paras && t.syms <= t'.syms && t'.links == t.links
  }

  lemma PrefixKeepsFind<T>(s: seq<T>, longer: seq<T>, p: T -> bool)
    requires s <= longer && Find(s, p) < |s|
    ensures Find(longer, p) == Find(s, p)
  {
    FindExtends(s, longer[|s|..], p);
    assert s + longer[|s|..] == longer;
  }

  lemma GrowthKeepsUids(t: Tables, t': Tables, r: Record)
    requires Grows(t, t') && Present(t, r.key)
    ensures Present(t', r.key) && LinkRowOf(t', r) == LinkRowOf(t, r)
  {
    var k := r.key;
    PrefixKeepsFind(t.docs, t'.docs, (d: string) => d == k.docId);
    PrefixKeepsFind(t.paras, t'.paras, (p: ParaRow) => p.paraKey == ParaKeyOf(k));
    PrefixKeepsFind(t.syms, t'.syms, (s: SymRow) => s.symKey == SymRowOf(k).symKey);
  }

  lemma GrowthRepresents(t: Tables, t': Tables, d: View)
    requires Represents(t, d) && Grows(t, t') && ValidTables(t') && CleanRows(t')
    ensures Represents(t', d)
  {
    forall i | 0 <= i < |d.keys|
      ensures Holds(t', d.at[d.keys[i]], t'.links[i])
    {
      assert Holds(t, d.at[d.keys[i]], t.links[i]);
      GrowthKeepsUids(t, t', d.at[d.keys[i]]);
    }
  }

  /** The rows of one batch, one per key, in the order the keys first occur. */
  datatype Batch = Batch(docs: seq<string>, paras: Dict<string, (string, string)>, syms: Dict<string, SymRow>)

  ghost predicate ParaOk(b: Batch, key: string) {
    key in b.paras.at && key == ParaKey(b.paras.at[key].0, b.paras.at[key].1) && b.paras.at[key].0 in b.docs
  }

  ghost predicate SymOk(b: Batch, key: string) {
    key in b.syms.at && key == b.syms.at[key].symKey && Keyed(b.syms.at[key])
  }

  ghost predicate ValidBatch(b: Batch) {
    && ValidDict(b.paras) && ValidDict(b.syms)
    && (forall k :: k in b.paras.at ==> ParaOk(b, k))
    && (forall k :: k in b.syms.at ==> SymOk(b, k))
  }

  ghost predicate Covers(b: Batch, k: Key) {
    k.docId in b.docs && ParaKeyOf(k) in b.paras.at && SymRowOf(k).symKey in b.syms.at
  }

  ghost predicate CleanBatch(b: Batch) {
    && (forall k :: k in b.paras.at ==> NulFree(b.paras.at[k].1))
    && (forall k :: k in b.syms.at ==> NulFree(b.syms.at[k].path))
  }

  function AddDocRow(b: Batch, id: string): Batch {
    if id in b.docs then b else b.(docs := b.docs + [id])
  }

  function AddParaRow(b: Batch, key: string, row: (string, string)): Batch {
    if key in b.paras.at then b else b.(paras := Put(b.paras, key, row))
  }

  function AddSymRow(b: Batch, row: SymRow): Batch {
    if row.symKey in b.syms.at then b else b.(syms := Put(b.syms, row.symKey, row))
  }

  function AddKey(b: Batch, k: Key): Batch {
    AddSymRow(AddParaRow(AddDocRow(b, k.docId), ParaKeyOf(k), (k.docId, Dumps(k.paraId))), SymRowOf(k))
  }

  lemma AddDocRowOk(b: Batch, id: string)
    requires ValidBatch(b)
    ensures ValidBatch(AddDocRow(b, id)) && id in AddDocRow(b, id).docs
    ensures CleanBatch(b) ==> CleanBatch(AddDocRow(b, id))
  {
    var b' := AddDocRow(b, id);
    assert forall key :: ParaOk(b, key) ==> ParaOk(b', key);
    assert forall key :: SymOk(b, key) ==> SymOk(b', key);
  }

  lemma AddParaRowOk(b: Batch, key: string, row: (string, string))
    requires ValidBatch(b) && key == ParaKey(row.0, row.1) && row.0 in b.docs
    ensures ValidBatch(AddParaRow(b, key, row)) && key in AddParaRow(b, key, row).paras.at
    ensures CleanBatch(b) && NulFree(row.1) ==> CleanBatch(AddParaRow(b, key, row))
  {
    var b' := AddParaRow(b, key, row);
    assert forall other :: ParaOk(b, other) ==> ParaOk(b', other);
    assert forall other :: SymOk(b, other) ==> SymOk(b', other);
    assert ParaOk(b', key);
  }

  lemma AddSymRowOk(b: Batch, row: SymRow)
    requires ValidBatch(b) && Keyed(row)
    ensures ValidBatch(AddSymRow(b, row)) && row.symKey in AddSymRow(b, row).syms.at
    ensures CleanBatch(b) && NulFree(row.path) ==> CleanBatch(AddSymRow(b, row))
  {
    var b' := AddSymRow(b, row);
    forall key | key in b'.syms.at
      ensures SymOk(b', key)
    {
      assert key in b.syms.at ==> SymOk(b, key);
    }
    forall key | key in b'.paras.at
      ensures ParaOk(b', key)
    {
      assert ParaOk(b, key);
    }
  }

  lemma AddKeyOk(b: Batch, k: Key)
    requires ValidBatch(b)
    ensures ValidBatch(AddKey(b, k))
    ensures CleanBatch(b) && Clean(k) ==> CleanBatch(AddKey(b, k))
  {
    var b1, row := AddDocRow(b, k.docId), (k.docId, Dumps(k.paraId));
    AddDocRowOk(b, k.docId);
    AddParaRowOk(b1, ParaKeyOf(k), row);
    AddSymRowOk(AddParaRow(b1, ParaKeyOf(k), row), SymRowOf(k));
    if Clean(k) {
      DumpsNulFree(k.paraId);
    }
  }

  lemma AddKeyCovers(b: Batch, k: Key, j: Key)
    requires Covers(b, j) || j == k
    ensures Covers(AddKey(b, k), j)
  {
  }

  ghost function Gathered(records: seq<Record>): Batch {
    if records == [] then Batch([], EmptyDict(), EmptyDict())
    else AddKey(Gathered(records[..|records| - 1]), records[|records| - 1].key)
  }

  lemma {:induction false} GatheredValid(records: seq<Record>)
    ensures ValidBatch(Gathered(records))
    ensures AllClean(records) ==> CleanBatch(Gathered(records))
  {
    if records != [] {
      var n := |records| - 1;
      GatheredValid(records[..n]);
      AddKeyOk(Gathered(records[..n]), records[n].key);
    }
  }

  lemma {:induction false} GatheredCovers(records: seq<Record>, i: nat)
    requires i < |records|
    ensures Covers(Gathered(records), records[i].key)
  {
    var n := |records| - 1;
    var init, b, k := records[..n], Gathered(records[..n]), records[n].key;
    if i < n {
      GatheredCovers(init, i);
      assert init[i] == records[i];
    }
    AddKeyCovers(b, k, records[i].key);
    assert Gathered(records) == AddKey(b, k);
  }

  /** First pass of the upsert: one row per key. */
  method Gather(records: seq<Record>) returns (b: Batch)
    ensures b == Gathered(records)
  {
    b := Batch([], EmptyDict(), EmptyDict());
    for i := 0 to |records|
      invariant b == Gathered(records[..i])
    {
      assert records[..i + 1][..i] == records[..i];
      b := AddKey(b, records[i].key);
    }
    assert records[..|records|] == records;
  }

  // INSERT ... ON CONFLICT for the key columns of the three dimension tables.

  function AddDoc(t: Tables, id: string): Tables {
    if DocUid(t, id) < |t.docs| then t else t.(docs := t.docs + [id])
  }

  function AddPara(t: Tables, key: string, row: (string, string)): Tables {
    if ParaUid(t, key) < |t.paras| then t
    else t.(paras := t.paras + [ParaRow(key, DocUid(t, row.0), row.1)])
  }

  function AddSym(t: Tables, row: SymRow): Tables {
    if SymUid(t, row.symKey) < |t.syms| then t else t.(syms := t.syms + [row])
  }

  /** Links stay valid while the other tables grow. */
  lemma GrowthKeepsLinks(t: Tables, t': Tables)
    requires ValidLinks(t) && Grows(t, t')
    ensures ValidLinks(t')
  {
    forall i | 0 <= i < |t'.links|
      ensures LinkInRange(t', t'.links[i])
    {
      assert LinkInRange(t, t.links[i]);
    }
  }

  lemma NewParaIsValid(docs: seq<string>, paras: seq<ParaRow>, row: ParaRow)
    requires ValidParas(docs, paras) && row.docUid < |docs| && row.paraKey == ParaKey(docs[row.docUid], row.paraJson)
    requires forall i :: 0 <= i < |paras| ==> paras[i].paraKey != row.paraKey
    ensures ValidParas(docs, paras + [row])
  {
  }

  lemma NewSymIsValid(syms: seq<SymRow>, row: SymRow)
    requires ValidSyms(syms) && Keyed(row) && forall i :: 0 <= i < |syms| ==> syms[i].symKey != row.symKey
    ensures ValidSyms(syms + [row])
  {
  }

  lemma NewDocIsValid(docs: seq<string>, paras: seq<ParaRow>, id: string)
    requires Distinct(docs) && ValidParas(docs, paras) && id !in docs
    ensures Distinct(docs + [id]) && ValidParas(docs + [id], paras)
  {
    DistinctSnoc(docs, id);
  }

  lemma AddDocGrows(t: Tables, id: string)
    requires ValidTables(t)
    ensures ValidTables(AddDoc(t, id)) && Grows(t, AddDoc(t, id)) && id in AddDoc(t, id).docs
    ensures CleanRows(t) ==> CleanRows(AddDoc(t, id))
  {
    if DocUid(t, id) < |t.docs| {
      assert t.docs[DocUid(t, id)] == id;
    } else {
      NewDocIsValid(t.docs, t.paras, id);
      GrowthKeepsLinks(t, AddDoc(t, id));
    }
  }

  ghost predicate HasPara(t: Tables, key: string) { exists p :: 0 <= p < |t.paras| && t.paras[p].paraKey == key }
  ghost predicate HasSym(t: Tables, key: string) { exists p :: 0 <= p < |t.syms| && t.syms[p].symKey == key }

  lemma GrowthKeepsRows(t: Tables, t': Tables)
    requires Grows(t, t')
    ensures forall id :: id in t.docs ==> id in t'.docs
    ensures forall key :: HasPara(t, key) ==> HasPara(t', key)
    ensures forall key :: HasSym(t, key) ==> HasSym(t', key)
  {
    assert forall p :: 0 <= p < |t.paras| ==> t.paras[p] == t'.paras[p];
    assert forall p :: 0 <= p < |t.syms| ==> t.syms[p] == t'.syms[p];
  }

  lemma AddParaGrows(t: Tables, key: string, row: (string, string))
    requires ValidTables(t) && key == ParaKey(row.0, row.1) && row.0 in t.docs
    ensures ValidTables(AddPara(t, key, row)) && Grows(t, AddPara(t, key, row)) && HasPara(AddPara(t, key, row), key)
    ensures CleanRows(t) && NulFree(row.1) ==> CleanRows(AddPara(t, key, row))
  {
    if ParaUid(t, key) < |t.paras| {
      assert t.paras[ParaUid(t, key)].paraKey == key;
    } else {
      var t', p := AddPara(t, key, row), ParaRow(key, DocUid(t, row.0), row.1);
      assert t.docs[DocUid(t, row.0)] == row.0;
      NewParaIsValid(t.docs, t.paras, p);
      GrowthKeepsLinks(t, t');
      assert t'.paras[|t.paras|] == p;
    }
  }

  lemma AddSymGrows(t: Tables, row: SymRow)
    requires ValidTables(t) && Keyed(row)
    ensures ValidTables(AddSym(t, row)) && Grows(t, AddSym(t, row)) && HasSym(AddSym(t, row), row.symKey)
    ensures CleanRows(t) && NulFree(row.path) ==> CleanRows(AddSym(t, row))
  {
    if SymUid(t, row.symKey) < |t.syms| {
      assert t.syms[SymUid(t, row.symKey)].symKey == row.symKey;
    } else {
      NewSymIsValid(t.syms, row);
      GrowthKeepsLinks(t, AddSym(t, row));
      assert AddSym(t, row).syms[|t.syms|] == row;
    }
  }

  ghost predicate HasRows(t: Tables, b: Batch, d: nat, p: nat, s: nat)
    requires d <= |b.docs| && p <= |b.paras.keys| && s <= |b.syms.keys|
  {
    && (forall j :: 0 <= j < d ==> b.docs[j] in t.docs)
    && (forall j :: 0 <= j < p ==> HasPara(t, b.paras.keys[j]))
    && (forall j :: 0 <= j < s ==> HasSym(t, b.syms.keys[j]))
  }

  ghost predicate Indexed(b: Batch) {
    && (forall i :: 0 <= i < |b.paras.keys| ==> b.paras.keys[i] in b.paras.at)
    && (forall i :: 0 <= i < |b.syms.keys| ==> b.syms.keys[i] in b.syms.at)
  }

  // Inserting the rows of one kind, one after the other.

  function DocRow(b: Batch): (Tables, nat) -> Tables {
    (t: Tables, i: nat) => if i < |b.docs| then AddDoc(t, b.docs[i]) else t
  }

  function ParaRowAt(b: Batch): (Tables, nat) -> Tables {
    (t: Tables, i: nat) =>
      if i < |b.paras.keys| && b.paras.keys[i] in b.paras.at
      then AddPara(t, b.paras.keys[i], b.paras.at[b.paras.keys[i]]) else t
  }

  function SymRowAt(b: Batch): (Tables, nat) -> Tables {
    (t: Tables, i: nat) =>
      if i < |b.syms.keys| && b.syms.keys[i] in b.syms.at then AddSym(t, b.syms.at[b.syms.keys[i]]) else t
  }

  lemma GrowthKeepsHasRows(t: Tables, t': Tables, b: Batch, d: nat, p: nat, s: nat)
    requires d <= |b.docs| && p <= |b.paras.keys| && s <= |b.syms.keys|
    requires HasRows(t, b, d, p, s) && Grows(t, t')
    ensures HasRows(t', b, d, p, s)
  {
    GrowthKeepsRows(t, t');
  }

  ghost predicate Progress(t: Tables, b: Batch, r: Tables) {
    ValidTables(r) && Grows(t, r) && (CleanRows(t) && CleanBatch(b) ==> CleanRows(r))
  }

  /** The tables with the first d documents, p paragraphs and s symbols of the batch in them. */
  ghost predicate Reached(t: Tables, b: Batch, r: Tables, d: nat, p: nat, s: nat) {
    && d <= |b.docs| && p <= |b.paras.keys| && s <= |b.syms.keys|
    && Progress(t, b, r) && HasRows(r, b, d, p, s)
  }

  lemma DocStep(t: Tables, b: Batch, u: Tables, d: nat)
    requires d < |b.docs| && Reached(t, b, u, d, 0, 0)
    ensures Reached(t, b, AddDoc(u, b.docs[d]), d + 1, 0, 0)
  {
    AddDocGrows(u, b.docs[d]);
    GrowthKeepsHasRows(u, AddDoc(u, b.docs[d]), b, d, 0, 0);
  }

  lemma ParaStep(t: Tables, b: Batch, u: Tables, p: nat)
    requires ValidBatch(b) && p < |b.paras.keys| && Reached(t, b, u, |b.docs|, p, 0)
    ensures Reached(t, b, AddPara(u, b.paras.keys[p], b.paras.at[b.paras.keys[p]]), |b.docs|, p + 1, 0)
  {
    var key := b.paras.keys[p];
    assert ParaOk(b, key);
    AddParaGrows(u, key, b.paras.at[key]);
    GrowthKeepsHasRows(u, AddPara(u, key, b.paras.at[key]), b, |b.docs|, p, 0);
  }

  lemma SymStep(t: Tables, b: Batch, u: Tables, s: nat)
    requires ValidBatch(b) && s < |b.syms.keys| && Reached(t, b, u, |b.docs|, |b.paras.keys|, s)
    ensures Reached(t, b, AddSym(u, b.syms.at[b.syms.keys[s]]), |b.docs|, |b.paras.keys|, s + 1)
  {
    var key := b.syms.keys[s];
    assert SymOk(b, key);
    AddSymGrows(u, b.syms.at[key]);
    GrowthKeepsHasRows(u, AddSym(u, b.syms.at[key]), b, |b.docs|, |b.paras.keys|, s);
  }

  lemma DocsInserted(t: Tables, b: Batch, u: Tables)
    requires Reached(t, b, u, 0, 0, 0)
    ensures Reached(t, b, Iterate(DocRow(b), u, |b.docs|), |b.docs|, 0, 0)
  {
    forall r: Tables, i: nat | i < |b.docs| && Reached(t, b, r, i, 0, 0)
      ensures Reached(t, b, DocRow(b)(r, i), i + 1, 0, 0)
    {
      DocStep(t, b, r, i);
    }
    IterateKeeps(DocRow(b), (r, i) => Reached(t, b, r, i, 0, 0), u, |b.docs|);
  }

  lemma ParasInserted(t: Tables, b: Batch, u: Tables)
    requires ValidBatch(b) && Reached(t, b, u, |b.docs|, 0, 0)
    ensures Reached(t, b, Iterate(ParaRowAt(b), u, |b.paras.keys|), |b.docs|, |b.paras.keys|, 0)
  {
    forall r: Tables, i: nat | i < |b.paras.keys| && Reached(t, b, r, |b.docs|, i, 0)
      ensures Reached(t, b, ParaRowAt(b)(r, i), |b.docs|, i + 1, 0)
    {
      ParaStep(t, b, r, i);
    }
    IterateKeeps(ParaRowAt(b), (r, i) => Reached(t, b, r, |b.docs|, i, 0), u, |b.paras.keys|);
  }

  lemma SymsInserted(t: Tables, b: Batch, u: Tables)
    requires ValidBatch(b) && Reached(t, b, u, |b.docs|, |b.paras.keys|, 0)
    ensures Reached(t, b, Iterate(SymRowAt(b), u, |b.syms.keys|), |b.docs|, |b.paras.keys|, |b.syms.keys|)
  {
    forall r: Tables, i: nat | i < |b.syms.keys| && Reached(t, b, r, |b.docs|, |b.paras.keys|, i)
      ensures Reached(t, b, SymRowAt(b)(r, i), |b.docs|, |b.paras.keys|, i + 1)
    {
      SymStep(t, b, r, i);
    }
    IterateKeeps(SymRowAt(b), (r, i) => Reached(t, b, r, |b.docs|, |b.paras.keys|, i), u, |b.syms.keys|);
  }

  /** The tables with all rows of the batch, documents first and symbols last. */
  ghost function AllInserted(t: Tables, b: Batch): Tables {
    Iterate(SymRowAt(b), Iterate(ParaRowAt(b), Iterate(DocRow(b), t, |b.docs|), |b.paras.keys|), |b.syms.keys|)
  }

  lemma RowsInserted(t: Tables, b: Batch)
    requires ValidTables(t) && ValidBatch(b)
    ensures Reached(t, b, AllInserted(t, b), |b.docs|, |b.paras.keys|, |b.syms.keys|)
  {
    var docs := Iterate(DocRow(b), t, |b.docs|);
    DocsInserted(t, b, t);
    ParasInserted(t, b, docs);
    SymsInserted(t, b, Iterate(ParaRowAt(b), docs, |b.paras.keys|));
  }

  /** Second pass: the three dimension tables, each in the order of the batch. */
  method InsertRows(t: Tables, b: Batch) returns (r: Tables)
    requires Indexed(b)
    ensures r == AllInserted(t, b)
  {
    r := t;
    for i := 0 to |b.docs|
      invariant r == Iterate(DocRow(b), t, i)
    {
      r := AddDoc(r, b.docs[i]);
    }
    ghost var docs := r;
    for i := 0 to |b.paras.keys|
      invariant r == Iterate(ParaRowAt(b), docs, i)
    {
      r := AddPara(r, b.paras.keys[i], b.paras.at[b.paras.keys[i]]);
    }
    ghost var paras := r;
    for i := 0 to |b.syms.keys|
      invariant r == Iterate(SymRowAt(b), paras, i)
    {
      r := AddSym(r, b.syms.at[b.syms.keys[i]]);
    }
  }

  lemma RowsArePresent(t: Tables, b: Batch, k: Key)
    requires ValidDict(b.paras) && ValidDict(b.syms) && Covers(b, k)
    requires HasRows(t, b, |b.docs|, |b.paras.keys|, |b.syms.keys|)
    ensures Present(t, k)
  {
    var i := KeyPosition(b.paras, ParaKeyOf(k));
    var j := KeyPosition(b.syms, SymRowOf(k).symKey);
    assert HasPara(t, ParaKeyOf(k)) && HasSym(t, SymRowOf(k).symKey);
  }

  lemma BatchIsPresent(t: Tables, b: Batch, k: Key)
    requires ValidTables(t) && ValidBatch(b) && Covers(b, k)
    ensures Present(AllInserted(t, b), k)
  {
    var r := AllInserted(t, b);
    RowsInserted(t, b);
    RowsArePresent(r, b, k);
  }

  function PutLinks(t: Tables, records: seq<Record>): Tables {
    if records == [] then t else PutLink(PutLinks(t, records[..|records| - 1]), records[|records| - 1])
  }

  lemma {:induction false} PutLinksKeepDimensions(t: Tables, records: seq<Record>)
    ensures PutLinks(t, records) == t.(links := PutLinks(t, records).links)
  {
    if records != [] {
      PutLinksKeepDimensions(t, records[..|records| - 1]);
    }
  }

  lemma {:induction false} PutLinksValid(t: Tables, records: seq<Record>)
    requires ValidTables(t) && forall i :: 0 <= i < |records| ==> Present(t, records[i].key)
    ensures ValidTables(PutLinks(t, records))
  {
    if records != [] {
      var u, r := PutLinks(t, records[..|records| - 1]), records[|records| - 1];
      PutLinksValid(t, records[..|records| - 1]);
      PutLinksKeepDimensions(t, records[..|records| - 1]);
      SameDimensions(t, u, r, LinkRowOf(t, r));
      PutLinkValid(u, r);
    }
  }

  lemma {:induction false} PutLinksRepresents(t: Tables, d: View, records: seq<Record>)
    requires Represents(t, d) && AllStorable(records)
    requires forall i :: 0 <= i < |records| ==> Present(t, records[i].key)
    ensures Represents(PutLinks(t, records), PutAll(d, records))
  {
    if records != [] {
      var u, r := PutLinks(t, records[..|records| - 1]), records[|records| - 1];
      PutLinksRepresents(t, d, records[..|records| - 1]);
      PutLinksKeepDimensions(t, records[..|records| - 1]);
      SameDimensions(t, u, r, LinkRowOf(t, r));
      PutLinkRepresents(u, PutAll(d, records[..|records| - 1]), r);
    }
  }

  ghost function Upserted(t: Tables, records: seq<Record>): Tables {
    GatheredValid(records);
    PutLinks(AllInserted(t, Gathered(records)), records)
  }

  /** _upsert_records_to_sqlite without replace_all. */
  method Upsert(t: Tables, records: seq<Record>) returns (r: Tables)
    ensures r == Upserted(t, records)
  {
    var b := Gather(records);
    GatheredValid(records);
    var u := InsertRows(t, b);
    r := WriteLinks(u, records);
  }

  /** Third pass: the link rows. */
  method WriteLinks(t: Tables, records: seq<Record>) returns (r: Tables)
    ensures r == PutLinks(t, records)
  {
    r := t;
    for i := 0 to |records|
      invariant r == PutLinks(t, records[..i])
    {
      PrefixSnoc(records, i);
      r := PutLink(r, records[i]);
    }
    assert records[..|records|] == records;
  }

  lemma UpsertedPresent(t: Tables, records: seq<Record>)
    requires ValidTables(t)
    ensures ValidBatch(Gathered(records))
    ensures forall i :: 0 <= i < |records| ==> Present(AllInserted(t, Gathered(records)), records[i].key)
  {
    GatheredValid(records);
    forall i | 0 <= i < |records|
      ensures Present(AllInserted(t, Gathered(records)), records[i].key)
    {
      GatheredCovers(records, i);
      BatchIsPresent(t, Gathered(records), records[i].key);
    }
  }

  lemma UpsertedValid(t: Tables, records: seq<Record>)
    requires ValidTables(t)
    ensures ValidTables(Upserted(t, records))
  {
    var b := Gathered(records);
    UpsertedPresent(t, records);
    RowsInserted(t, b);
    PutLinksValid(AllInserted(t, b), records);
  }

  /** If the tables showed a view, they show it with the batch written over it afterwards. */
  lemma UpsertedRepresents(t: Tables, d: View, records: seq<Record>)
    requires Represents(t, d) && AllStorable(records)
    ensures Represents(Upserted(t, records), PutAll(d, records))
  {
    var b := Gathered(records);
    UpsertedPresent(t, records);
    GatheredValid(records);
    RowsInserted(t, b);
    GrowthRepresents(t, AllInserted(t, b), d);
    PutLinksRepresents(AllInserted(t, b), d, records);
  }

  // ------------------------------------------- lines the tables do not tell apart

  lemma {:induction false} GatheredNorm(records: seq<Record>)
    ensures Gathered(NormAll(records)) == Gathered(records)
  {
    if records != [] {
      var n := |records| - 1;
      GatheredNorm(records[..n]);
      assert NormAll(records)[..n] == NormAll(records[..n]);
      AddKeyNorm(Gathered(records[..n]), records[n]);
    }
  }

  lemma AddKeyNorm(b: Batch, r: Record)
    ensures AddKey(b, Norm(r).key) == AddKey(b, r.key)
  {
    assert SymRowOf(Norm(r).key) == SymRowOf(r.key);
  }

  lemma {:induction false} PutLinksNorm(t: Tables, records: seq<Record>)
    ensures PutLinks(t, NormAll(records)) == PutLinks(t, records)
  {
    if records != [] {
      var n := |records| - 1;
      PutLinksNorm(t, records[..n]);
      assert NormAll(records)[..n] == NormAll(records[..n]);
      PutLinkNorm(PutLinks(t, records[..n]), records[n]);
    }
  }

  lemma PutLinkNorm(t: Tables, r: Record)
    ensures PutLink(t, Norm(r)) == PutLink(t, r)
  {
    assert SymRowOf(Norm(r).key) == SymRowOf(r.key);
  }

  lemma UpsertedNorm(t: Tables, records: seq<Record>)
    ensures Upserted(t, NormAll(records)) == Upserted(t, records)
  {
    GatheredNorm(records);
    GatheredValid(records);
    PutLinksNorm(AllInserted(t, Gathered(records)), records);
  }
}
