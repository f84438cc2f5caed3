/** Link records and the last-writer-wins view of a log of them (link_store.py). */
module Records {
  import opened Common
  import opened Json

  datatype Status = Active | Stale
  datatype Kind = Symbol | Endpoint

  /** The `lines` field: absent, or a pair of possibly missing line numbers. */
  type Lines = Option<(Option<int>, Option<int>)>

  /** record_key: what makes two records the same link. */
  datatype Key = Key(docId: string, paraId: Json, path: string, name: string, lines: Lines, kind: Kind)

  datatype Record = Record(
    key: Key,
    projectId: string,
    relation: string,
    provenance: string,
    score: real,
    status: Status,
    createdAt: Option<nat>,
    staledAt: Option<nat>,
    docSha: Option<string>,
    codeSha: Option<string>)

  /** The checks of _validate_record; a failing record rejects its whole batch. */
  predicate Acceptable(r: Record) {
    && r.projectId != "" && r.relation != "" && r.provenance != ""
    && r.key.docId != "" && r.key.path != "" && r.key.name != ""
  }

  predicate AllAcceptable(rs: seq<Record>) { forall i :: 0 <= i < |rs| ==> Acceptable(rs[i]) }

  /** A record without a creation time gets the current one. */
  function Stamp(r: Record, now: nat): Record {
    if r.createdAt.None? then r.(createdAt := Some(now)) else r
  }

  function StampAll(rs: seq<Record>, now: nat): (s: seq<Record>)
    ensures |s| == |rs|
  {
    seq(|rs|, i requires 0 <= i < |rs| => Stamp(rs[i], now))
  }

  type View = Dict<Key, Record>

  function PutAll(d: View, rs: seq<Record>): (r: View)
    ensures ValidDict(d) ==> ValidDict(r)
  {
    if rs == [] then d
    else
      var last := rs[|rs| - 1];
      Put(PutAll(d, rs[..|rs| - 1]), last.key, last)
  }

  /** The canonical read view of a log: the last record of every key. */
  function Latest(log: seq<Record>): (d: View)
    ensures ValidDict(d)
  {
    PutAll(EmptyDict(), log)
  }

  /** latest_records: one pass with a dictionary and an order list. */
  method LatestRecords(log: seq<Record>) returns (rs: seq<Record>)
    ensures rs == Values(Latest(log))
  {
    var latest: map<Key, Record>, order: seq<Key> := map[], [];
    for i := 0 to |log|
      invariant Dict(order, latest) == Latest(log[..i])
    {
      assert log[..i + 1][..i] == log[..i];
      var key := log[i].key;
      if key !in latest {
        order := order + [key];
      }
      latest := latest[key := log[i]];
    }
    assert log[..|log|] == log;
    rs := [];
    for i := 0 to |order|
      invariant rs == Values(Latest(log))[..i]
    {
      rs := rs + [latest[order[i]]];
    }
  }

  lemma {:induction false} PutAllConcat(d: View, a: seq<Record>, b: seq<Record>)
    ensures PutAll(d, a + b) == PutAll(PutAll(d, a), b)
    decreases |b|
  {
    if b == [] {
      assert a + b == a;
    } else {
      var init, r := b[..|b| - 1], b[|b| - 1];
      PutAllConcat(d, a, init);
      assert b == init + [r] && a + b == (a + init) + [r];
      PutAllSnoc(d, a + init, r);
      PutAllSnoc(PutAll(d, a), init, r);
    }
  }

  lemma PutAllSnoc(d: View, rs: seq<Record>, r: Record)
    ensures PutAll(d, rs + [r]) == Put(PutAll(d, rs), r.key, r)
  {
    assert (rs + [r])[..|rs|] == rs;
  }

  lemma LatestConcat(a: seq<Record>, b: seq<Record>)
    ensures Latest(a + b) == PutAll(Latest(a), b)
  {
    PutAllConcat(EmptyDict(), a, b);
  }

  // ------------------------------------------------- what the view means

  /** The last record with a key, found by scanning backwards. */
  function LastWith(log: seq<Record>, k: Key): Option<Record> {
    if log == [] then None
    else if log[|log| - 1].key == k then Some(log[|log| - 1])
    else LastWith(log[..|log| - 1], k)
  }

  function Lookup(d: View, k: Key): Option<Record> { if k in d.at then Some(d.at[k]) else None }

  lemma {:induction false} LookupPutAll(d: View, rs: seq<Record>, k: Key)
    ensures Lookup(PutAll(d, rs), k) == if LastWith(rs, k).Some? then LastWith(rs, k) else Lookup(d, k)
  {
    if rs != [] {
      LookupPutAll(d, rs[..|rs| - 1], k);
    }
  }

  /** The view holds, for every key, exactly the last record logged under it. */
  lemma LatestIsLastWith(log: seq<Record>, k: Key)
    ensures Lookup(Latest(log), k) == LastWith(log, k)
  {
    LookupPutAll(EmptyDict(), log, k);
  }

  /** The first position at which a key was logged; the length of the log if nowhere. */
  function FirstIndex(log: seq<Record>, k: Key): (i: nat)
    ensures i <= |log| && (i < |log| ==> log[i].key == k)
    ensures forall j :: 0 <= j < i ==> log[j].key != k
  {
    if log == [] then 0
    else
      var n := |log| - 1;
      var i := FirstIndex(log[..n], k);
      if i < n || log[n].key == k then i else |log|
  }

  /** A view that lists the keys with a rank below n, in the order of their ranks. */
  ghost predicate RankedBy(d: View, rank: Key -> nat, n: nat) {
    && (forall k :: k in d.at <==> rank(k) < n)
    && (forall a, b :: 0 <= a < b < |d.keys| ==> rank(d.keys[a]) < rank(d.keys[b]))
  }

  function FirstRank(log: seq<Record>): Key -> nat { k => FirstIndex(log, k) }

  lemma FirstIndexSnoc(log: seq<Record>, r: Record, k: Key)
    ensures FirstIndex(log + [r], k) ==
      if FirstIndex(log, k) < |log| || r.key == k then FirstIndex(log, k) else |log| + 1
  {
    assert (log + [r])[..|log|] == log;
  }

  /** A key that is new takes the next rank; a known one keeps its own. */
  lemma PutKeepsRanks(d: View, r: Record, rank: Key -> nat, rank': Key -> nat, n: nat)
    requires ValidDict(d) && RankedBy(d, rank, n) && rank(r.key) <= n
    requires forall k :: rank'(k) == if rank(k) < n || r.key == k then rank(k) else n + 1
    ensures RankedBy(Put(d, r.key, r), rank', n + 1)
  {
    var d' := Put(d, r.key, r);
    forall k
      ensures k in d'.at <==> rank'(k) < n + 1
    {
      assert k in d'.at <==> k in d.at || k == r.key;
      assert k in d.at <==> rank(k) < n;
    }
    forall a, b | 0 <= a < b < |d'.keys|
      ensures rank'(d'.keys[a]) < rank'(d'.keys[b])
    {
      assert d'.keys[a] == d.keys[a] && d.keys[a] in d.at;
      if b < |d.keys| {
        assert d'.keys[b] == d.keys[b] && d.keys[b] in d.at;
      } else {
        assert d'.keys[b] == r.key && r.key !in d.at;
      }
    }
  }

  lemma {:induction false} LatestIsRanked(log: seq<Record>)
    ensures RankedBy(Latest(log), FirstRank(log), |log|)
  {
    if log != [] {
      var n := |log| - 1;
      var init, r := log[..n], log[n];
      LatestIsRanked(init);
      assert log == init + [r];
      forall k
        ensures FirstRank(log)(k) == if FirstRank(init)(k) < n || r.key == k then FirstRank(init)(k) else n + 1
      {
        FirstIndexSnoc(init, r, k);
      }
      PutKeepsRanks(Latest(init), r, FirstRank(init), FirstRank(log), n);
    }
  }

  /** The view lists exactly the logged keys, in the order of their first appearance. */
  lemma LatestKeepsFirstAppearanceOrder(log: seq<Record>)
    ensures forall k :: k in Latest(log).at <==> FirstIndex(log, k) < |log|
    ensures forall a, b | 0 <= a < b < |Latest(log).keys| ::
      FirstIndex(log, Latest(log).keys[a]) < FirstIndex(log, Latest(log).keys[b])
  {
    LatestIsRanked(log);
    assert forall k :: FirstRank(log)(k) == FirstIndex(log, k);
  }
}
