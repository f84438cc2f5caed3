/** A project's link directory across runs: the store, the saved counts and the guard that
    reads them (link_engine.build_links, link_store.save_state). */
module Pipeline {
  import opened Common
  import opened Records
  import opened Tables
  import opened Store
  import opened Build

  datatype Counts = Counts(active: nat, stale: nat, total: nat)

  function CountsOf(rs: seq<Record>): Counts { Counts(CountStatus(rs, Active), CountStatus(rs, Stale), |rs|) }

  function LogCounts(log: seq<Record>): Counts { CountsOf(Values(Latest(log))) }

  // -------------------------------------------------------------- what counts mean

  lemma {:induction false} StatusesPartition(rs: seq<Record>)
    ensures CountStatus(rs, Active) + CountStatus(rs, Stale) == |rs|
  {
    if rs != [] {
      StatusesPartition(rs[..|rs| - 1]);
    }
  }

  ghost function LoggedKeys(log: seq<Record>): set<Key> { set i | 0 <= i < |log| :: log[i].key }

  /** Active and stale links add up to the number of distinct keys ever logged. */
  lemma CountsAddUp(log: seq<Record>)
    ensures LogCounts(log).active + LogCounts(log).stale == LogCounts(log).total == |LoggedKeys(log)|
  {
    StatusesPartition(Values(Latest(log)));
    ElementsSize(Latest(log).keys);
    LatestKeepsFirstAppearanceOrder(log);
    assert Elements(Latest(log).keys) == LoggedKeys(log) by {
      forall k
        ensures k in Latest(log).keys <==> k in LoggedKeys(log)
      {
        assert k in Latest(log).keys <==> k in Latest(log).at;
        assert k in LoggedKeys(log) <==> FirstIndex(log, k) < |log|;
      }
    }
  }

  /** The second view holds the stamped records of the first, under the same keys in the same order. */
  ghost predicate StampedView(d: View, e: View, now: nat) {
    && e.keys == d.keys && (forall k :: k in e.at <==> k in d.at)
    && (forall k :: k in d.at ==> e.at[k] == Stamp(d.at[k], now))
  }

  lemma PutStamped(d: View, e: View, r: Record, now: nat)
    requires StampedView(d, e, now)
    ensures StampedView(Put(d, r.key, r), Put(e, r.key, Stamp(r, now)), now)
  {
  }

  lemma {:induction false} LatestOfStamped(log: seq<Record>, now: nat)
    ensures StampedView(Latest(log), Latest(StampAll(log, now)), now)
  {
    if log != [] {
      var n := |log| - 1;
      LatestOfStamped(log[..n], now);
      assert StampAll(log, now)[..n] == StampAll(log[..n], now);
      assert StampAll(log, now)[n] == Stamp(log[n], now);
      PutStamped(Latest(log[..n]), Latest(StampAll(log[..n], now)), log[n], now);
    }
  }

  lemma {:induction false} StampingKeepsStatus(rs: seq<Record>, now: nat, status: Status)
    ensures CountStatus(StampAll(rs, now), status) == CountStatus(rs, status)
  {
    if rs != [] {
      StampingKeepsStatus(rs[..|rs| - 1], now, status);
      assert StampAll(rs, now)[..|rs| - 1] == StampAll(rs[..|rs| - 1], now);
    }
  }

  lemma StampingKeepsCounts(log: seq<Record>, now: nat)
    ensures LogCounts(StampAll(log, now)) == LogCounts(log)
  {
    LatestOfStamped(log, now);
    assert Values(Latest(StampAll(log, now))) == StampAll(Values(Latest(log)), now);
    StampingKeepsStatus(Values(Latest(log)), now, Active);
    StampingKeepsStatus(Values(Latest(log)), now, Stale);
  }

  /** The counts are taken from records that have not been stamped yet; the log's are the same. */
  lemma ProjectedCounts(log: seq<Record>, added: seq<Record>, now: nat)
    requires Stamped(log)
    ensures LogCounts(log + added) == LogCounts(log + StampAll(added, now))
  {
    StampingKeepsCounts(log + added, now);
    assert StampAll(log + added, now) == log + StampAll(added, now);
  }

  lemma KeptIsStamped(log: seq<Record>, s: Snapshot, mode: Mode, now: nat)
    requires AllAcceptable(log) && Stamped(log)
    ensures Stamped(Existing(log, mode) + Staled(log, s, mode, now))
  {
    StaleCopiesFit(log, DropRule(s, mode), now);
  }

  lemma BuildLogSplits(log: seq<Record>, s: Snapshot, mode: Mode, now: nat)
    ensures BuildLog(log, s, mode, now) ==
      Existing(log, mode) + Staled(log, s, mode, now) + StampAll(NewRecords(log, s, mode), now)
  {
  }

  /** The counts a run saves are those of the log it leaves. */
  lemma RunCounts(log: seq<Record>, s: Snapshot, mode: Mode, now: nat)
    requires AllAcceptable(log) && Stamped(log)
    ensures LogCounts(Existing(log, mode) + Staled(log, s, mode, now) + NewRecords(log, s, mode)) ==
      LogCounts(BuildLog(log, s, mode, now))
  {
    KeptIsStamped(log, s, mode, now);
    BuildLogSplits(log, s, mode, now);
    ProjectedCounts(Existing(log, mode) + Staled(log, s, mode, now), NewRecords(log, s, mode), now);
  }

  // ------------------------------------------------------------------ dry runs

  ghost function ActiveKeys(log: seq<Record>): set<Key> {
    set k | k in Latest(log).at && Latest(log).at[k].status.Active?
  }

  /** What a dry run projects: nothing is staled, and the new records stand behind the old ones. */
  function Projected(log: seq<Record>, s: Snapshot, mode: Mode): seq<Record> {
    Existing(log, mode) + NewRecords(log, s, mode)
  }

  /** Links a real run would stale without writing them again. */
  ghost predicate IsLost(log: seq<Record>, s: Snapshot, mode: Mode, k: Key) {
    var before := Lookup(Latest(Existing(log, mode)), k);
    && before.Some? && before.value.status.Active? && DropRule(s, mode)(before.value)
    && LastWith(NewRecords(log, s, mode), k).None?
  }

  ghost function Lost(log: seq<Record>, s: Snapshot, mode: Mode): set<Key> {
    set k | k in ActiveKeys(Existing(log, mode)) && IsLost(log, s, mode, k)
  }

  lemma {:induction false} ChangedFrom(view: View, rs: seq<Record>)
    ensures forall i :: 0 <= i < |Changed(view, rs)| ==> Changed(view, rs)[i] in rs
  {
    if rs != [] {
      ChangedFrom(view, rs[..|rs| - 1]);
    }
  }

  lemma NewIsActive(log: seq<Record>, s: Snapshot, mode: Mode, k: Key)
    ensures LastWith(NewRecords(log, s, mode), k).Some? ==> LastWith(NewRecords(log, s, mode), k).value.status.Active?
  {
    ChangedFrom(Latest(log), FreshRecords(s));
    LastWithIsLogged(NewRecords(log, s, mode), k);
  }

  ghost predicate IsActive(r: Option<Record>) { r.Some? && r.value.status.Active? }

  lemma ActiveKeyMeans(log: seq<Record>, k: Key)
    ensures k in ActiveKeys(log) <==> IsActive(Lookup(Latest(log), k))
  {
  }

  lemma ProjectedKey(log: seq<Record>, s: Snapshot, mode: Mode, now: nat, k: Key)
    ensures var dry := Lookup(Latest(Projected(log, s, mode)), k);
      var real' := Lookup(Latest(BuildLog(log, s, mode, now)), k);
      && (IsActive(dry) <==> IsActive(real') || IsLost(log, s, mode, k))
      && !(IsActive(real') && IsLost(log, s, mode, k))
  {
    BuildLookup(log, s, mode, now, k);
    AppendLookup(Existing(log, mode), NewRecords(log, s, mode), k);
    NewIsActive(log, s, mode, k);
  }

  /** In every mode a dry run, which skips staling, projects the active links of the real run and
      beside them exactly the links the real run stales without writing them again. */
  lemma DryRunProjection(log: seq<Record>, s: Snapshot, mode: Mode, now: nat)
    ensures ActiveKeys(Projected(log, s, mode)) == ActiveKeys(BuildLog(log, s, mode, now)) + Lost(log, s, mode)
    ensures ActiveKeys(BuildLog(log, s, mode, now)) !! Lost(log, s, mode)
    ensures mode.ReconcileCompacting? ==> Lost(log, s, mode) == {}
  {
    forall k: Key
      ensures k in ActiveKeys(Projected(log, s, mode)) <==>
        k in ActiveKeys(BuildLog(log, s, mode, now)) || k in Lost(log, s, mode)
      ensures !(k in ActiveKeys(BuildLog(log, s, mode, now)) && k in Lost(log, s, mode))
    {
      ProjectedKey(log, s, mode, now, k);
      ActiveKeyMeans(Projected(log, s, mode), k);
      ActiveKeyMeans(BuildLog(log, s, mode, now), k);
      ActiveKeyMeans(Existing(log, mode), k);
    }
  }

  ghost function KeysWith(rs: seq<Record>, status: Status): set<Key> {
    set i | 0 <= i < |rs| && rs[i].status == status :: rs[i].key
  }

  lemma {:induction false} CountIsKeys(rs: seq<Record>, status: Status)
    requires DistinctKeys(rs)
    ensures CountStatus(rs, status) == |KeysWith(rs, status)|
  {
    if rs != [] {
      var n := |rs| - 1;
      CountIsKeys(rs[..n], status);
      KeysWithSnoc(rs, status);
    }
  }

  lemma KeysWithSnoc(rs: seq<Record>, status: Status)
    requires DistinctKeys(rs) && rs != []
    ensures var init, r := KeysWith(rs[..|rs| - 1], status), rs[|rs| - 1];
      r.key !in init && KeysWith(rs, status) == if r.status == status then init + {r.key} else init
  {
    var n := |rs| - 1;
    assert forall i :: 0 <= i < n ==> rs[..n][i] == rs[i];
  }

  /** The active count of a log is the number of its active keys. */
  lemma ActiveCount(log: seq<Record>)
    ensures LogCounts(log).active == |ActiveKeys(log)|
  {
    var d := Latest(log);
    ViewKeysDistinct(log);
    CountIsKeys(Values(d), Active);
    forall k: Key
      ensures k in KeysWith(Values(d), Active) <==> k in ActiveKeys(log)
    {
      ActiveKeyListed(log, k);
    }
    assert KeysWith(Values(d), Active) == ActiveKeys(log);
  }

  lemma ActiveKeyListed(log: seq<Record>, k: Key)
    ensures k in KeysWith(Values(Latest(log)), Active) <==> k in ActiveKeys(log)
  {
    var d := Latest(log);
    if k in ActiveKeys(log) {
      var i := KeyPosition(d, k);
      ViewHoldsLogged(log, i);
    }
    if k in KeysWith(Values(d), Active) {
      var i :| 0 <= i < |d.keys| && Values(d)[i].status == Active && Values(d)[i].key == k;
      ViewHoldsLogged(log, i);
    }
  }

  /** The active count a dry run reports is too high by the number of lost links, so it is right
      exactly when no link is lost. */
  lemma DryRunOvercounts(log: seq<Record>, s: Snapshot, mode: Mode, now: nat)
    ensures LogCounts(Projected(log, s, mode)).active ==
      LogCounts(BuildLog(log, s, mode, now)).active + |Lost(log, s, mode)|
    ensures LogCounts(Projected(log, s, mode)).active == LogCounts(BuildLog(log, s, mode, now)).active <==>
      Lost(log, s, mode) == {}
  {
    DryRunProjection(log, s, mode, now);
    ActiveCount(Projected(log, s, mode));
    ActiveCount(BuildLog(log, s, mode, now));
  }

  /** A link whose symbol is gone, with nothing matched any more, is lost. */
  lemma VanishedSymbolIsLost(r: Record, s: Snapshot)
    requires r.status.Active? && s.matches == [] && IdentityOf(r.key) !in s.symbols
    ensures Lost([r], s, Incremental) == {r.key}
  {
    PutAllSnoc(EmptyDict(), [], r);
    assert [] + [r] == [r] && Latest([r]) == Put(EmptyDict(), r.key, r);
    assert FreshRecords(s) == [];
    assert IsLost([r], s, Incremental, r.key);
  }

  // ------------------------------------------------- spans written by builds

  lemma NewIsCanonical(log: seq<Record>, s: Snapshot, mode: Mode, now: nat)
    ensures AllCanonical(StampAll(NewRecords(log, s, mode), now))
  {
    ChangedFrom(Latest(log), FreshRecords(s));
    assert AllCanonical(FreshRecords(s));
    forall i | 0 <= i < |NewRecords(log, s, mode)|
      ensures Canonical(NewRecords(log, s, mode)[i].key.lines)
    {
      var j :| 0 <= j < |FreshRecords(s)| && FreshRecords(s)[j] == NewRecords(log, s, mode)[i];
    }
  }

  lemma {:induction false} CopiesCanonical(rs: seq<Record>, drop: Record -> bool, now: nat)
    requires AllCanonical(rs)
    ensures AllCanonical(StaleCopiesOf(rs, drop, now))
  {
    if rs != [] {
      CopiesCanonical(rs[..|rs| - 1], drop, now);
    }
  }

  lemma StaledIsCanonical(log: seq<Record>, drop: Record -> bool, now: nat)
    requires AllCanonical(log)
    ensures AllCanonical(StaleCopies(log, drop, now))
  {
    forall i | 0 <= i < |Latest(log).keys|
      ensures Canonical(Values(Latest(log))[i].key.lines)
    {
      ViewHoldsLogged(log, i);
    }
    CopiesCanonical(Values(Latest(log)), drop, now);
  }

  /** A build never writes a span that lacks its start. */
  lemma BuildKeepsCanonical(log: seq<Record>, s: Snapshot, mode: Mode, now: nat)
    requires AllCanonical(log)
    ensures AllCanonical(BuildLog(log, s, mode, now))
  {
    NewIsCanonical(log, s, mode, now);
    StaledIsCanonical(log, DropRule(s, mode), now);
  }

  // --------------------------------------------------------------------- a run

  datatype Step = Step(s: Snapshot, mode: Mode, dryRun: bool, now: nat)

  /** The guard against a collapsed symbol read. */
  predicate Refuses(log: seq<Record>, step: Step) {
    step.mode.Incremental? && !step.dryRun && step.s.symbols == {} && LogCounts(log).active > 0
  }

  function StepBuild(log: seq<Record>, step: Step): seq<Record> {
    if Refuses(log, step) || step.dryRun then log else BuildLog(log, step.s, step.mode, step.now)
  }

  datatype Report = Refused | Built(newLinks: seq<Record>, staled: seq<Record>, coverage: Counts)

  class Project {
    const store: LinkStore
    var saved: Option<Counts>

    /** The saved counts are those of the store, in every state between runs, and no logged span
        lacks its start. */
    ghost predicate Valid()
      reads this, store
    {
      && store.Valid() && AllCanonical(store.log)
      && match saved case None => store.log == [] case Some(c) => c == LogCounts(store.log)
    }

    constructor ()
      ensures Valid() && fresh(store) && saved == None && store.log == []
    {
      store := new LinkStore();
      saved := None;
    }

    /** build_links from the loaded graphs on. */
    method BuildLinks(step: Step) returns (report: Report)
      requires Valid() && AllAcceptable(FreshRecords(step.s))
      modifies this, store
      ensures Valid()
      ensures report.Refused? <==> Refuses(old(store.log), step)
      ensures store.log == StepBuild(old(store.log), step)
      ensures report.Refused? || step.dryRun ==> store.db == old(store.db) && saved == old(saved)
      ensures report.Built? ==> report.newLinks == NewRecords(old(store.log), step.s, step.mode)
      ensures report.Built? && !step.dryRun ==>
        && report.staled == Staled(old(store.log), step.s, step.mode, step.now)
        && saved == Some(report.coverage) && report.coverage == LogCounts(store.log)
      ensures report.Built? && step.dryRun ==>
        report.staled == [] && report.coverage == LogCounts(Projected(old(store.log), step.s, step.mode))
    {
      if step.mode.Incremental? && !step.dryRun && step.s.symbols == {} && saved.Some? && saved.value.active > 0 {
        return Refused;
      }
      if step.dryRun {
        report := Preview(step.s, step.mode);
      } else {
        report := Commit(step.s, step.mode, step.now);
      }
    }

    /** A dry build. */
    method Preview(s: Snapshot, mode: Mode) returns (report: Report)
      requires store.Valid()
      ensures report == Built(NewRecords(store.log, s, mode), [], LogCounts(Projected(store.log, s, mode)))
    {
      var existing := Existing(store.log, mode);
      var added := DeltaFilter(Latest(existing), FreshRecords(s), mode);
      var coverage := Coverage(existing, [], added);
      report := Built(added, [], coverage);
    }

    /** A build that writes; the filter looks at the view from before staling. */
    method Commit(s: Snapshot, mode: Mode, now: nat) returns (report: Report)
      requires store.Valid() && AllCanonical(store.log) && AllAcceptable(FreshRecords(s))
      modifies this, store
      ensures store.Valid() && AllCanonical(store.log)
      ensures store.log == BuildLog(old(store.log), s, mode, now) && saved == Some(LogCounts(store.log))
      ensures report.Built? && report.newLinks == NewRecords(old(store.log), s, mode)
      ensures report.staled == Staled(old(store.log), s, mode, now) && report.coverage == LogCounts(store.log)
    {
      var existing := Existing(store.log, mode);
      var added := DeltaFilter(Latest(existing), FreshRecords(s), mode);
      var staled := Write(s, added, mode, now);
      var coverage := Coverage(existing, staled, added);
      saved := Some(coverage);
      report := Built(added, staled, coverage);
    }

    /** The writing part of a build: stale, then append or compact. */
    method Write(s: Snapshot, added: seq<Record>, mode: Mode, now: nat) returns (staled: seq<Record>)
      requires store.Valid() && AllAcceptable(added) && added == NewRecords(store.log, s, mode)
      requires AllCanonical(store.log)
      modifies store
      ensures store.Valid() && AllCanonical(store.log)
      ensures staled == Staled(old(store.log), s, mode, now) && store.log == BuildLog(old(store.log), s, mode, now)
      ensures LogCounts(Existing(old(store.log), mode) + staled + added) == LogCounts(store.log)
    {
      RunCounts(store.log, s, mode, now);
      BuildKeepsCanonical(store.log, s, mode, now);
      staled := StaleDropped(s, mode, now);
      WriteNew(added, mode, now);
    }

    /** latest_links over the tables serves the latest view of the log. */
    method ServedLinks() returns (links: seq<Record>)
      requires Valid()
      ensures AllClean(store.log) ==> links == Values(Latest(store.log))
    {
      links := store.LatestLinks();
      CanonicalIsShown(store.log);
    }

    /** query_status_counts over the tables agrees with state.json. */
    method ServedCounts() returns (served: Counts)
      requires Valid()
      ensures served == CountsOf(Joined(store.db))
      ensures AllClean(store.log) ==> served == LogCounts(store.log)
      ensures AllClean(store.log) && saved.Some? ==> served == saved.value
    {
      var active, stale, total := store.StatusCounts();
      served := Counts(active, stale, total);
      if AllClean(store.log) {
        TablesShowLatestExactly(store.log, store.db);
      }
    }

    method StaleDropped(s: Snapshot, mode: Mode, now: nat) returns (staled: seq<Record>)
      requires store.Valid()
      modifies store
      ensures store.Valid()
      ensures staled == Staled(old(store.log), s, mode, now) && store.log == old(store.log) + staled
      ensures staled == [] ==> store.log == old(store.log)
    {
      staled := [];
      if !mode.ReconcileCompacting? {
        staled := store.MarkStale(DropRule(s, mode), now);
      }
    }

    method WriteNew(added: seq<Record>, mode: Mode, now: nat)
      requires store.Valid() && AllAcceptable(added)
      modifies store
      ensures store.Valid()
      ensures store.log == (if mode.ReconcileCompacting? then [] else old(store.log)) + StampAll(added, now)
    {
      if mode.ReconcileCompacting? {
        var _ := store.Compact(added, now);
      } else if added != [] {
        var _ := store.Append(added, now);
      }
    }
  }

  /** The counts of the projected view. */
  method Coverage(existing: seq<Record>, staled: seq<Record>, added: seq<Record>) returns (c: Counts)
    ensures c == LogCounts(existing + staled + added)
    ensures staled == [] ==> c == LogCounts(existing + added)
  {
    var projected := LatestRecords(existing + staled + added);
    c := CountsOf(projected);
    assert staled == [] ==> existing + staled + added == existing + added;
  }

  method DeltaFilter(view: View, found: seq<Record>, mode: Mode) returns (added: seq<Record>)
    ensures added == if mode.Incremental? then Changed(view, found) else found
    ensures AllAcceptable(found) ==> AllAcceptable(added)
  {
    added := [];
    for i := 0 to |found|
      invariant added == if mode.Incremental? then Changed(view, found[..i]) else found[..i]
      invariant AllAcceptable(found) ==> AllAcceptable(added)
    {
      assert found[..i + 1][..i] == found[..i];
      if !mode.Incremental? || !Unchanged(view, found[i]) {
        added := added + [found[i]];
      }
    }
    assert found[..|found|] == found;
  }

  // ---------------------------------------------------------------- every run

  function RunBuild(steps: seq<Step>): seq<Record> {
    if steps == [] then [] else StepBuild(RunBuild(steps[..|steps| - 1]), steps[|steps| - 1])
  }

  method BuildAll(steps: seq<Step>) returns (project: Project)
    requires forall i :: 0 <= i < |steps| ==> AllAcceptable(FreshRecords(steps[i].s))
    ensures fresh(project) && fresh(project.store) && project.Valid() && project.store.log == RunBuild(steps)
  {
    project := new Project();
    for i := 0 to |steps|
      invariant fresh(project) && fresh(project.store) && project.Valid()
      invariant project.store.log == RunBuild(steps[..i])
    {
      PrefixSnoc(steps, i);
      var _ := project.BuildLinks(steps[i]);
    }
    assert steps[..|steps|] == steps;
  }

  /** After any sequence of runs on any graphs, the saved counts, the counts served from the
      tables and the counts of the log's latest view are the same, and so are the links served from
      the tables and that view. */
  method RunBuilds(steps: seq<Step>) returns (saved: Option<Counts>, served: Counts, links: seq<Record>)
    requires forall i :: 0 <= i < |steps| ==> AllAcceptable(FreshRecords(steps[i].s))
    ensures saved.Some? ==> saved.value == LogCounts(RunBuild(steps))
    ensures saved.None? ==> RunBuild(steps) == []
    ensures AllClean(RunBuild(steps)) ==> served == LogCounts(RunBuild(steps))
    ensures AllClean(RunBuild(steps)) ==> links == Values(Latest(RunBuild(steps)))
  {
    var project := BuildAll(steps);
    saved := project.saved;
    served := project.ServedCounts();
    links := project.ServedLinks();
  }
}
