/** The link store: an append-only log and the SQLite tables kept in step with it. */
module Store {
  import opened Common
  import opened Records
  import opened Tables

  ghost predicate Stamped(rs: seq<Record>) { forall i :: 0 <= i < |rs| ==> rs[i].createdAt.Some? }

  /** What every operation keeps: well-formed tables that stand for the last-writer-wins view of the
      log, with keys read as the tables tell them apart. */
  ghost predicate InStep(log: seq<Record>, db: Tables) {
    && ValidTables(db) && AllAcceptable(log) && Stamped(log)
    && (AllClean(log) ==> Represents(db, Latest(NormAll(log))))
  }

  /** What the tables show of a log. */
  function TableView(log: seq<Record>): seq<Record> { ShownAll(Values(Latest(NormAll(log)))) }

  function StaleCopy(r: Record, now: nat): Record { r.(status := Stale, staledAt := Some(now)) }

  function StaleCopiesOf(rs: seq<Record>, drop: Record -> bool, now: nat): seq<Record> {
    if rs == [] then []
    else
      var init, r := StaleCopiesOf(rs[..|rs| - 1], drop, now), rs[|rs| - 1];
      if r.status.Active? && drop(r) then init + [StaleCopy(r, now)] else init
  }

  /** What mark_stale appends: copies of the active latest records that satisfy the predicate. */
  function StaleCopies(log: seq<Record>, drop: Record -> bool, now: nat): seq<Record> {
    StaleCopiesOf(Values(Latest(log)), drop, now)
  }

  function WithStatus(rs: seq<Record>, status: Status): seq<Record> {
    if rs == [] then []
    else WithStatus(rs[..|rs| - 1], status) + if rs[|rs| - 1].status == status then [rs[|rs| - 1]] else []
  }

  function CountStatus(rs: seq<Record>, status: Status): nat { |WithStatus(rs, status)| }

  // ---------------------------------------------------------- steps of the log

  lemma AppendKeepsInStep(log: seq<Record>, db: Tables, batch: seq<Record>)
    requires InStep(log, db) && AllAcceptable(batch) && Stamped(batch)
    ensures InStep(log + batch, Upserted(db, batch))
  {
    UpsertedValid(db, batch);
    if AllClean(log + batch) {
      assert AllClean(log) by {
        assert forall i :: 0 <= i < |log| ==> log[i] == (log + batch)[i];
      }
      assert AllClean(batch) by {
        assert forall i :: 0 <= i < |batch| ==> batch[i] == (log + batch)[|log| + i];
      }
      NormIsStorable(batch);
      UpsertedNorm(db, batch);
      UpsertedRepresents(db, Latest(NormAll(log)), NormAll(batch));
      LatestConcat(NormAll(log), NormAll(batch));
      NormAllConcat(log, batch);
    }
  }

  lemma NormAllConcat(a: seq<Record>, b: seq<Record>)
    ensures NormAll(a + b) == NormAll(a) + NormAll(b)
  {
  }

  lemma EmptyInStep()
    ensures InStep([], EMPTY)
  {
  }

  lemma CompactKeepsInStep(batch: seq<Record>)
    requires AllAcceptable(batch) && Stamped(batch)
    ensures InStep(batch, Upserted(EMPTY, batch))
  {
    EmptyInStep();
    AppendKeepsInStep([], EMPTY, batch);
    assert [] + batch == batch;
  }

  lemma ViewHoldsLogged(log: seq<Record>, i: nat)
    requires i < |Latest(log).keys|
    ensures Values(Latest(log))[i] in log && Values(Latest(log))[i].key == Latest(log).keys[i]
  {
    var k := Latest(log).keys[i];
    LatestIsLastWith(log, k);
    LastWithIsLogged(log, k);
  }

  lemma {:induction false} LastWithIsLogged(log: seq<Record>, k: Key)
    ensures LastWith(log, k).Some? ==> LastWith(log, k).value in log && LastWith(log, k).value.key == k
  {
    if log != [] {
      LastWithIsLogged(log[..|log| - 1], k);
    }
  }

  lemma {:induction false} StaleCopiesAcceptable(rs: seq<Record>, drop: Record -> bool, now: nat)
    requires AllAcceptable(rs) && Stamped(rs)
    ensures AllAcceptable(StaleCopiesOf(rs, drop, now)) && Stamped(StaleCopiesOf(rs, drop, now))
  {
    if rs != [] {
      StaleCopiesAcceptable(rs[..|rs| - 1], drop, now);
    }
  }

  lemma StaleCopiesFit(log: seq<Record>, drop: Record -> bool, now: nat)
    requires AllAcceptable(log) && Stamped(log)
    ensures AllAcceptable(StaleCopies(log, drop, now)) && Stamped(StaleCopies(log, drop, now))
  {
    forall i | 0 <= i < |Latest(log).keys|
      ensures Acceptable(Values(Latest(log))[i]) && Values(Latest(log))[i].createdAt.Some?
    {
      ViewHoldsLogged(log, i);
    }
    StaleCopiesAcceptable(Values(Latest(log)), drop, now);
  }

  lemma StampAllFits(rs: seq<Record>, now: nat)
    requires AllAcceptable(rs)
    ensures AllAcceptable(StampAll(rs, now)) && Stamped(StampAll(rs, now))
  {
  }

  lemma StampStamped(rs: seq<Record>, now: nat)
    requires Stamped(rs)
    ensures StampAll(rs, now) == rs
  {
  }

  method CopyStale(rs: seq<Record>, drop: Record -> bool, now: nat) returns (copies: seq<Record>)
    ensures copies == StaleCopiesOf(rs, drop, now)
  {
    copies := [];
    for i := 0 to |rs|
      invariant copies == StaleCopiesOf(rs[..i], drop, now)
    {
      assert rs[..i + 1][..i] == rs[..i];
      if rs[i].status.Active? && drop(rs[i]) {
        copies := copies + [StaleCopy(rs[i], now)];
      }
    }
    assert rs[..|rs|] == rs;
  }

  method CountRows(links: seq<LinkRow>, ghost rs: seq<Record>) returns (active: nat, stale: nat)
    requires |links| == |rs| && forall i :: 0 <= i < |rs| ==> links[i].status == rs[i].status
    ensures active == CountStatus(rs, Active) && stale == CountStatus(rs, Stale)
    ensures active + stale == |rs|
  {
    active, stale := 0, 0;
    for i := 0 to |links|
      invariant active == CountStatus(rs[..i], Active) && stale == CountStatus(rs[..i], Stale)
      invariant active + stale == i
    {
      assert rs[..i + 1][..i] == rs[..i];
      if links[i].status.Active? {
        active := active + 1;
      } else {
        stale := stale + 1;
      }
    }
    assert rs[..|links|] == rs;
  }

  /** The select with its three joins. */
  method JoinRows(t: Tables) returns (rs: seq<Record>)
    requires ValidTables(t)
    ensures rs == Joined(t)
  {
    rs := [];
    for i := 0 to |t.links|
      invariant |rs| == i && forall j :: 0 <= j < i ==> rs[j] == Joined(t)[j]
    {
      JoinedAt(t, i);
      rs := rs + [Join(t, t.links[i])];
    }
    assert rs == Joined(t);
  }

  lemma JoinedAt(t: Tables, i: nat)
    requires ValidTables(t) && i < |t.links|
    ensures LinkInRange(t, t.links[i]) && Joined(t)[i] == Join(t, t.links[i])
  {
  }

  // ------------------------------------------------------------------ the store

  /** One writer's step; each runs alone under the store lock. */
  datatype Op =
    | AppendOp(records: seq<Record>, now: nat)
    | StaleOp(drop: Record -> bool, now: nat)
    | CompactOp(records: seq<Record>, now: nat)

  function StepLog(log: seq<Record>, op: Op): seq<Record> {
    match op
    case AppendOp(records, now) => if AllAcceptable(records) then log + StampAll(records, now) else log
    case StaleOp(drop, now) => log + StaleCopies(log, drop, now)
    case CompactOp(records, now) => if AllAcceptable(records) then StampAll(records, now) else log
  }

  class LinkStore {
    var log: seq<Record>
    var db: Tables

    ghost predicate Valid()
      reads this
    {
      InStep(log, db)
    }

    constructor ()
      ensures Valid() && log == [] && db == EMPTY
    {
      log, db := [], EMPTY;
      new;
      EmptyInStep();
    }

    /** append_links: one bad record rejects the batch and nothing is written. */
    method Append(records: seq<Record>, now: nat) returns (ok: bool)
      requires Valid()
      modifies this
      ensures Valid()
      ensures ok == AllAcceptable(records)
      ensures log == if ok then old(log) + StampAll(records, now) else old(log)
      ensures !ok || records == [] ==> db == old(db)
    {
      ok := AllAcceptable(records);
      if ok && records != [] {
        var prepared := StampAll(records, now);
        StampAllFits(records, now);
        AppendKeepsInStep(log, db, prepared);
        var next := Upsert(db, prepared);
        log, db := log + prepared, next;
      }
    }

    /** mark_stale on the log as loaded at the start of the run. */
    method MarkStale(drop: Record -> bool, now: nat) returns (copies: seq<Record>)
      requires Valid()
      modifies this
      ensures Valid()
      ensures copies == StaleCopies(old(log), drop, now)
      ensures log == old(log) + copies
    {
      var latest := LatestRecords(log);
      copies := CopyStale(latest, drop, now);
      StaleCopiesFit(log, drop, now);
      StampStamped(copies, now);
      var ok := Append(copies, now);
    }

    /** compact_store_on_reconcile: the log becomes the given records and the tables are rebuilt. */
    method Compact(records: seq<Record>, now: nat) returns (ok: bool)
      requires Valid()
      modifies this
      ensures Valid()
      ensures ok == AllAcceptable(records)
      ensures log == if ok then StampAll(records, now) else old(log)
      ensures !ok ==> db == old(db)
    {
      ok := AllAcceptable(records);
      if ok {
        var prepared := StampAll(records, now);
        StampAllFits(records, now);
        CompactKeepsInStep(prepared);
        var next := Upsert(EMPTY, prepared);
        log, db := prepared, next;
      }
    }

    method Apply(op: Op)
      requires Valid()
      modifies this
      ensures Valid() && log == StepLog(old(log), op)
    {
      match op
      case AppendOp(records, now) => var _ := Append(records, now);
      case StaleOp(drop, now) => var _ := MarkStale(drop, now);
      case CompactOp(records, now) => var _ := Compact(records, now);
    }

    /** latest_links through the tables: the four-way join in rowid order. */
    method LatestLinks() returns (rs: seq<Record>)
      requires Valid()
      ensures rs == Joined(db)
      ensures AllClean(log) ==> rs == TableView(log)
    {
      rs := JoinRows(db);
      if AllClean(log) {
        JoinIsView(db, Latest(NormAll(log)));
      }
    }

    /** query_status_counts: a scan of the link rows alone. */
    method StatusCounts() returns (active: nat, stale: nat, total: nat)
      requires Valid()
      ensures active == CountStatus(Joined(db), Active) && stale == CountStatus(Joined(db), Stale)
      ensures total == |Joined(db)| == active + stale
    {
      active, stale := CountRows(db.links, Joined(db));
      total := |db.links|;
    }
  }

  // ------------------------------------------------------------- every run

  function RunLog(ops: seq<Op>): seq<Record> {
    if ops == [] then [] else StepLog(RunLog(ops[..|ops| - 1]), ops[|ops| - 1])
  }

  ghost predicate AllCanonical(log: seq<Record>) { forall i :: 0 <= i < |log| ==> Canonical(log[i].key.lines) }

  lemma LoggedKeyIsShown(log: seq<Record>, i: nat, view: seq<Record>)
    requires i < |log| && view == Values(Latest(log))
    ensures exists j :: 0 <= j < |view| && view[j].key == log[i].key
  {
    LatestKeepsFirstAppearanceOrder(log);
    assert FirstIndex(log, log[i].key) <= i;
    var j := KeyPosition(Latest(log), log[i].key);
    ViewHoldsLogged(log, j);
  }

  /** A log of canonical spans is shown as it is. */
  lemma CanonicalIsShown(log: seq<Record>)
    requires AllCanonical(log)
    ensures TableView(log) == Values(Latest(log)) && NormAll(log) == log
  {
    assert NormAll(log) == log;
    var rs := Values(Latest(log));
    forall i | 0 <= i < |rs|
      ensures Shown(rs[i]) == rs[i]
    {
      ViewHoldsLogged(log, i);
    }
  }

  lemma ShownIsCanonical(db: Tables, i: nat)
    requires ValidTables(db) && i < |db.links|
    ensures Canonical(Joined(db)[i].key.lines)
  {
  }

  /** With NUL-free paths the tables show the last-writer-wins view of the log under the keys they tell
      apart, and that is the latest view exactly when no logged span lacks its start. */
  lemma TablesShowLatestExactly(log: seq<Record>, db: Tables)
    requires InStep(log, db) && AllClean(log)
    ensures Joined(db) == TableView(log)
    ensures Joined(db) == Values(Latest(log)) <==> AllCanonical(log)
  {
    JoinIsView(db, Latest(NormAll(log)));
    if AllCanonical(log) {
      CanonicalIsShown(log);
    }
    if Joined(db) == Values(Latest(log)) {
      forall i | 0 <= i < |log|
        ensures Canonical(log[i].key.lines)
      {
        LoggedKeyIsShown(log, i, Joined(db));
        var j :| 0 <= j < |db.links| && Joined(db)[j].key == log[i].key;
        ShownIsCanonical(db, j);
      }
    }
  }

  /** Any sequence of appends, staling and compactions from the empty store. */
  method Run(ops: seq<Op>) returns (view: seq<Record>, active: nat, stale: nat)
    ensures AllClean(RunLog(ops)) ==> view == TableView(RunLog(ops))
    ensures AllClean(RunLog(ops)) ==> (view == Values(Latest(RunLog(ops))) <==> AllCanonical(RunLog(ops)))
    ensures active == CountStatus(view, Active) && stale == CountStatus(view, Stale) && active + stale == |view|
  {
    var store := new LinkStore();
    for i := 0 to |ops|
      invariant fresh(store) && store.Valid()
      invariant store.log == RunLog(ops[..i])
    {
      assert ops[..i + 1][..i] == ops[..i];
      store.Apply(ops[i]);
    }
    assert ops[..|ops|] == ops;
    view := store.LatestLinks();
    var total: nat;
    active, stale, total := store.StatusCounts();
    if AllClean(store.log) {
      TablesShowLatestExactly(store.log, store.db);
    }
  }

  /** The restriction is needed: a span without a start is shown without its end. */
  lemma SpanWithoutStartIsLost(r: Record)
    requires Acceptable(r) && r.createdAt.Some? && Clean(r.key)
    requires r.key.lines == Some((None, Some(7)))
    ensures ValidTables(Upserted(EMPTY, [r])) && Joined(Upserted(EMPTY, [r])) != Values(Latest([r]))
  {
    CompactKeepsInStep([r]);
    assert !AllCanonical([r]) by { assert [r][0] == r; }
    TablesShowLatestExactly([r], Upserted(EMPTY, [r]));
  }
}
