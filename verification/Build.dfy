/** build_links (link_engine.py): match, stale the drifted links, filter, append, save counts. */
module Build {
  import opened Common
  import opened Json
  import opened Records
  import opened Tables
  import opened Store

  datatype Identity = Identity(path: string, name: string, start: Option<int>, end: Option<int>, kind: Kind)
  datatype Anchor = Anchor(docId: string, paraId: Json)
  datatype Match = Match(anchor: Anchor, code: Identity, score: real)

  /** What one run reads: both graphs, the joined baseline hashes and the fresh matches. */
  datatype Snapshot = Snapshot(
    projectId: string,
    anchors: set<Anchor>,
    symbols: set<Identity>,
    docSha: string -> Option<string>,
    codeSha: Identity -> Option<string>,
    matches: seq<Match>)

  // ------------------------------------------------------------------- records

  function KeyOf(m: Match): Key {
    Key(m.anchor.docId, m.anchor.paraId, m.code.path, m.code.name,
        if m.code.start.Some? then Some((m.code.start, m.code.end)) else None, m.code.kind)
  }

  /** build_record: a symbol without a start line is stored without lines. */
  function RecordOf(s: Snapshot, m: Match): Record {
    Record(KeyOf(m), s.projectId, "implements", "exact-name", m.score, Active, None, None,
           s.docSha(m.anchor.docId), s.codeSha(m.code))
  }

  function FreshRecords(s: Snapshot): (rs: seq<Record>)
    ensures |rs| == |s.matches|
  {
    seq(|s.matches|, i requires 0 <= i < |s.matches| => RecordOf(s, s.matches[i]))
  }

  /** _code_identity_of: absent lines read as two missing numbers. */
  function IdentityOf(k: Key): Identity { Identity(k.path, k.name, StartOf(k.lines), EndOf(k.lines), k.kind) }

  function AnchorOf(k: Key): Anchor { Anchor(k.docId, k.paraId) }

  /** A stored hash is contradicted only by a different known hash. */
  predicate Contradicts(now: Option<string>, stored: Option<string>) { now.Some? && stored.Some? && now != stored }

  predicate Drifted(s: Snapshot, r: Record) {
    || IdentityOf(r.key) !in s.symbols
    || AnchorOf(r.key) !in s.anchors
    || Contradicts(s.docSha(r.key.docId), r.docSha)
    || Contradicts(s.codeSha(IdentityOf(r.key)), r.codeSha)
  }

  /** The delta filter, which looks at the view from before staling. */
  predicate Unchanged(view: View, r: Record) {
    && r.key in view.at && view.at[r.key].status.Active?
    && view.at[r.key].docSha == r.docSha && view.at[r.key].codeSha == r.codeSha
  }

  function Changed(view: View, rs: seq<Record>): seq<Record> {
    if rs == [] then []
    else
      var init, r := Changed(view, rs[..|rs| - 1]), rs[|rs| - 1];
      if Unchanged(view, r) then init else init + [r]
  }

  datatype Mode = Incremental | Reconcile | ReconcileCompacting

  function NewRecords(log: seq<Record>, s: Snapshot, mode: Mode): seq<Record> {
    if mode.Incremental? then Changed(Latest(log), FreshRecords(s)) else FreshRecords(s)
  }

  function DropRule(s: Snapshot, mode: Mode): Record -> bool {
    if mode.Incremental? then r => Drifted(s, r) else _ => true
  }

  function Staled(log: seq<Record>, s: Snapshot, mode: Mode, now: nat): seq<Record> {
    if mode.ReconcileCompacting? then [] else StaleCopies(log, DropRule(s, mode), now)
  }

  /** The log after a run that writes. */
  function BuildLog(log: seq<Record>, s: Snapshot, mode: Mode, now: nat): seq<Record> {
    var added := StampAll(NewRecords(log, s, mode), now);
    if mode.ReconcileCompacting? then added else log + Staled(log, s, mode, now) + added
  }

  // ---------------------------------------------------------- what runs assume

  ghost predicate DistinctKeys(rs: seq<Record>) { forall i, j :: 0 <= i < j < |rs| ==> rs[i].key != rs[j].key }

  /** The matcher emits pairs of what was read. */
  ghost predicate WellRead(s: Snapshot) {
    forall i :: 0 <= i < |s.matches| ==> s.matches[i].anchor in s.anchors && s.matches[i].code in s.symbols
  }

  /** The identity that the stored record of a match reads back as was read from the graph,
      and its hash does not contradict the one stored. */
  ghost predicate Recognised(s: Snapshot, m: Match) {
    IdentityOf(KeyOf(m)) in s.symbols && !Contradicts(s.codeSha(IdentityOf(KeyOf(m))), s.codeSha(m.code))
  }

  ghost predicate AllRecognised(s: Snapshot) { forall i :: 0 <= i < |s.matches| ==> Recognised(s, s.matches[i]) }

  /** Matches that are stored under one key carry one code hash. */
  ghost predicate SharedKeysAgree(s: Snapshot) {
    forall i, j :: 0 <= i < j < |s.matches| && KeyOf(s.matches[i]) == KeyOf(s.matches[j]) ==>
      s.codeSha(s.matches[i].code) == s.codeSha(s.matches[j].code)
  }

  /** What decides whether builds on this snapshot come to rest. */
  ghost predicate Settles(s: Snapshot) { AllRecognised(s) && SharedKeysAgree(s) }

  // ------------------------------------------------------------ reading a batch

  lemma {:induction false} StaleCopyAbsent(rs: seq<Record>, drop: Record -> bool, now: nat, k: Key)
    requires forall i :: 0 <= i < |rs| ==> rs[i].key != k
    ensures LastWith(StaleCopiesOf(rs, drop, now), k) == None
  {
    if rs != [] {
      StaleCopyAbsent(rs[..|rs| - 1], drop, now, k);
      StaleCopyStep(rs, drop, now, k);
    }
  }

  lemma StaleCopyStep(rs: seq<Record>, drop: Record -> bool, now: nat, k: Key)
    requires rs != []
    ensures var r := rs[|rs| - 1];
      LastWith(StaleCopiesOf(rs, drop, now), k) ==
      if r.key == k && r.status.Active? && drop(r) then Some(StaleCopy(r, now))
      else LastWith(StaleCopiesOf(rs[..|rs| - 1], drop, now), k)
  {
    var init, all := StaleCopiesOf(rs[..|rs| - 1], drop, now), StaleCopiesOf(rs, drop, now);
    if |all| > |init| {
      assert all[..|all| - 1] == init;
    }
  }

  lemma {:induction false} StaleCopyPresent(rs: seq<Record>, drop: Record -> bool, now: nat, i: nat)
    requires i < |rs| && DistinctKeys(rs)
    ensures LastWith(StaleCopiesOf(rs, drop, now), rs[i].key) ==
      if rs[i].status.Active? && drop(rs[i]) then Some(StaleCopy(rs[i], now)) else None
  {
    var n := |rs| - 1;
    StaleCopyStep(rs, drop, now, rs[i].key);
    if i < n {
      assert rs[..n][i] == rs[i] && rs[i].key != rs[n].key;
      StaleCopyPresent(rs[..n], drop, now, i);
    } else {
      StaleCopyAbsent(rs[..n], drop, now, rs[n].key);
    }
  }

  lemma ViewKeysDistinct(log: seq<Record>)
    ensures DistinctKeys(Values(Latest(log)))
  {
    var rs := Values(Latest(log));
    forall i | 0 <= i < |rs|
      ensures rs[i].key == Latest(log).keys[i]
    {
      ViewHoldsLogged(log, i);
    }
  }

  /** Staling writes one copy per dropped active link and nothing else. */
  lemma StaleCopiesLookup(log: seq<Record>, drop: Record -> bool, now: nat, k: Key)
    ensures LastWith(StaleCopies(log, drop, now), k) ==
      var before := Lookup(Latest(log), k);
      if before.Some? && before.value.status.Active? && drop(before.value)
      then Some(StaleCopy(before.value, now)) else None
  {
    var rs := Values(Latest(log));
    ViewKeysDistinct(log);
    if k in Latest(log).at {
      var i := KeyPosition(Latest(log), k);
      ViewHoldsLogged(log, i);
      StaleCopyPresent(rs, drop, now, i);
    } else {
      forall i | 0 <= i < |rs|
        ensures rs[i].key != k
      {
        ViewHoldsLogged(log, i);
      }
      StaleCopyAbsent(rs, drop, now, k);
    }
  }

  lemma {:induction false} StampLookup(rs: seq<Record>, now: nat, k: Key)
    ensures LastWith(StampAll(rs, now), k) ==
      if LastWith(rs, k).Some? then Some(Stamp(LastWith(rs, k).value, now)) else None
  {
    if rs != [] {
      StampLookup(rs[..|rs| - 1], now, k);
      assert StampAll(rs, now)[..|rs| - 1] == StampAll(rs[..|rs| - 1], now);
    }
  }

  /** The last record of a key that the filter lets through. */
  function LastChanged(view: View, rs: seq<Record>, k: Key): Option<Record> {
    if rs == [] then None
    else
      var r := rs[|rs| - 1];
      if r.key == k && !Unchanged(view, r) then Some(r) else LastChanged(view, rs[..|rs| - 1], k)
  }

  lemma {:induction false} ChangedLookup(view: View, rs: seq<Record>, k: Key)
    ensures LastWith(Changed(view, rs), k) == LastChanged(view, rs, k)
  {
    if rs != [] {
      var n := |rs| - 1;
      ChangedLookup(view, rs[..n], k);
      var init := Changed(view, rs[..n]);
      assert (init + [rs[n]])[..|init|] == init;
    }
  }

  lemma {:induction false} LastChangedMeans(view: View, rs: seq<Record>, k: Key)
    ensures LastChanged(view, rs, k).None? ==> forall i :: 0 <= i < |rs| && rs[i].key == k ==> Unchanged(view, rs[i])
    ensures LastChanged(view, rs, k).Some? ==>
      exists i :: 0 <= i < |rs| && rs[i].key == k && !Unchanged(view, rs[i]) && LastChanged(view, rs, k).value == rs[i]
  {
    if rs != [] {
      var n := |rs| - 1;
      LastChangedMeans(view, rs[..n], k);
      assert forall i :: 0 <= i < n ==> rs[..n][i] == rs[i];
    }
  }

  // ------------------------------------------------------ one run, key by key

  function FreshFor(s: Snapshot, k: Key): Option<Record> { LastWith(FreshRecords(s), k) }

  lemma FreshForMeans(s: Snapshot, k: Key)
    ensures FreshFor(s, k).Some? ==>
      exists i :: 0 <= i < |s.matches| && KeyOf(s.matches[i]) == k && FreshFor(s, k).value == RecordOf(s, s.matches[i])
  {
    LastWithIsLogged(FreshRecords(s), k);
  }

  lemma AppendLookup(log: seq<Record>, batch: seq<Record>, k: Key)
    ensures Lookup(Latest(log + batch), k) ==
      if LastWith(batch, k).Some? then LastWith(batch, k) else Lookup(Latest(log), k)
  {
    LatestConcat(log, batch);
    LookupPutAll(Latest(log), batch, k);
  }

  /** What a key shows after a run that wrote this record for it, if any. */
  function Outcome(before: Option<Record>, written: Option<Record>, drop: Record -> bool, now: nat): Option<Record> {
    if written.Some? then Some(Stamp(written.value, now))
    else if before.Some? && before.value.status.Active? && drop(before.value) then Some(StaleCopy(before.value, now))
    else before
  }

  /** The log a run starts from; a compacting run ignores the old one. */
  function Existing(log: seq<Record>, mode: Mode): seq<Record> { if mode.ReconcileCompacting? then [] else log }

  /** In every mode: a key shows what was written for it, or its stale copy, or what it showed before. */
  lemma BuildLookup(log: seq<Record>, s: Snapshot, mode: Mode, now: nat, k: Key)
    ensures Lookup(Latest(BuildLog(log, s, mode, now)), k) ==
      Outcome(Lookup(Latest(Existing(log, mode)), k), LastWith(NewRecords(log, s, mode), k), DropRule(s, mode), now)
  {
    var staled, added := Staled(log, s, mode, now), NewRecords(log, s, mode);
    StampLookup(added, now, k);
    if mode.ReconcileCompacting? {
      LatestIsLastWith(StampAll(added, now), k);
    } else {
      StaleCopiesLookup(log, DropRule(s, mode), now, k);
      AppendLookup(log, staled, k);
      AppendLookup(log + staled, StampAll(added, now), k);
    }
  }

  /** After an incremental run a key shows the last fresh record of it that differed from what was
      shown before the run. */
  lemma IncrementalLookup(log: seq<Record>, s: Snapshot, now: nat, k: Key)
    ensures Lookup(Latest(BuildLog(log, s, Incremental, now)), k) ==
      Outcome(Lookup(Latest(log), k), LastChanged(Latest(log), FreshRecords(s), k), DropRule(s, Incremental), now)
  {
    BuildLookup(log, s, Incremental, now, k);
    ChangedLookup(Latest(log), FreshRecords(s), k);
  }

  // --------------------------------------------------------- incremental runs

  /** A link that is active, carries the current hashes and still has both its ends. */
  ghost predicate Current(log: seq<Record>, s: Snapshot, m: Match) {
    var r := Lookup(Latest(log), KeyOf(m));
    && r.Some? && r.value.status.Active?
    && r.value.docSha == s.docSha(m.anchor.docId) && r.value.codeSha == s.codeSha(m.code)
  }

  ghost predicate NoActiveDrift(log: seq<Record>, s: Snapshot) {
    forall k :: k in Latest(log).at && Latest(log).at[k].status.Active? ==> !Drifted(s, Latest(log).at[k])
  }

  /** Every match is current and no active link is drifted. */
  ghost predicate Steady(log: seq<Record>, s: Snapshot) {
    (forall i :: 0 <= i < |s.matches| ==> Current(log, s, s.matches[i])) && NoActiveDrift(log, s)
  }

  lemma ViewKeyed(log: seq<Record>, k: Key)
    ensures k in Latest(log).at ==> Latest(log).at[k].key == k
  {
    LatestIsLastWith(log, k);
    LastWithIsLogged(log, k);
  }

  /** A fresh record is drifted in its own snapshot exactly when its match is not recognised. */
  lemma FreshDrift(s: Snapshot, i: nat, r: Record)
    requires WellRead(s) && i < |s.matches|
    requires r.key == KeyOf(s.matches[i])
    requires r.docSha == s.docSha(s.matches[i].anchor.docId) && r.codeSha == s.codeSha(s.matches[i].code)
    ensures Drifted(s, r) <==> !Recognised(s, s.matches[i])
  {
  }

  /** With shared keys in agreement, any fresh record of a key has the hashes of all of them. */
  lemma SameHashes(s: Snapshot, i: nat, j: nat)
    requires SharedKeysAgree(s) && i < |s.matches| && j < |s.matches| && KeyOf(s.matches[i]) == KeyOf(s.matches[j])
    ensures RecordOf(s, s.matches[i]).docSha == RecordOf(s, s.matches[j]).docSha
    ensures RecordOf(s, s.matches[i]).codeSha == RecordOf(s, s.matches[j]).codeSha
  {
  }

  /** What was written for a key came from one of its matches. */
  lemma ChangedMatch(view: View, s: Snapshot, k: Key) returns (j: nat)
    requires LastChanged(view, FreshRecords(s), k).Some?
    ensures j < |s.matches| && KeyOf(s.matches[j]) == k
    ensures LastChanged(view, FreshRecords(s), k).value == RecordOf(s, s.matches[j])
  {
    LastChangedMeans(view, FreshRecords(s), k);
    j :| 0 <= j < |s.matches| && FreshRecords(s)[j].key == k
      && LastChanged(view, FreshRecords(s), k).value == FreshRecords(s)[j];
  }

  lemma BuildMakesCurrent(log: seq<Record>, s: Snapshot, now: nat, i: nat)
    requires WellRead(s) && Settles(s) && i < |s.matches|
    ensures Current(BuildLog(log, s, Incremental, now), s, s.matches[i])
  {
    var k, view := KeyOf(s.matches[i]), Latest(log);
    IncrementalLookup(log, s, now, k);
    if LastChanged(view, FreshRecords(s), k).Some? {
      var j := ChangedMatch(view, s, k);
      SameHashes(s, i, j);
    } else {
      LastChangedMeans(view, FreshRecords(s), k);
      assert Unchanged(view, FreshRecords(s)[i]);
      ViewKeyed(log, k);
      FreshDrift(s, i, view.at[k]);
    }
  }

  lemma OutcomeIsNotDrifted(s: Snapshot, before: Option<Record>, written: Option<Record>, now: nat, r: Record)
    requires Outcome(before, written, DropRule(s, Incremental), now) == Some(r) && r.status.Active?
    requires written.Some? ==> !Drifted(s, written.value)
    ensures !Drifted(s, r)
  {
  }

  lemma BuildLeavesNoDrift(log: seq<Record>, s: Snapshot, now: nat, k: Key, r: Record)
    requires WellRead(s) && AllRecognised(s)
    requires Lookup(Latest(BuildLog(log, s, Incremental, now)), k) == Some(r) && r.status.Active?
    ensures !Drifted(s, r)
  {
    var written := LastChanged(Latest(log), FreshRecords(s), k);
    IncrementalLookup(log, s, now, k);
    if written.Some? {
      var j := ChangedMatch(Latest(log), s, k);
      FreshDrift(s, j, written.value);
    }
    OutcomeIsNotDrifted(s, Lookup(Latest(log), k), written, now, r);
  }

  /** After an incremental run every match is active with the hashes just joined, and no
      active link has lost an end or a hash. */
  lemma IncrementalBuildIsSteady(log: seq<Record>, s: Snapshot, now: nat)
    requires WellRead(s) && Settles(s)
    ensures Steady(BuildLog(log, s, Incremental, now), s)
  {
    var after := BuildLog(log, s, Incremental, now);
    forall i | 0 <= i < |s.matches|
      ensures Current(after, s, s.matches[i])
    {
      BuildMakesCurrent(log, s, now, i);
    }
    forall k | k in Latest(after).at && Latest(after).at[k].status.Active?
      ensures !Drifted(s, Latest(after).at[k])
    {
      BuildLeavesNoDrift(log, s, now, k, Latest(after).at[k]);
    }
  }

  lemma {:induction false} NothingToStale(rs: seq<Record>, drop: Record -> bool, now: nat)
    ensures StaleCopiesOf(rs, drop, now) == [] <==> forall i :: 0 <= i < |rs| ==> !(rs[i].status.Active? && drop(rs[i]))
  {
    if rs != [] {
      var n := |rs| - 1;
      NothingToStale(rs[..n], drop, now);
      assert forall i :: 0 <= i < n ==> rs[..n][i] == rs[i];
    }
  }

  lemma {:induction false} NothingChanged(view: View, rs: seq<Record>)
    ensures Changed(view, rs) == [] <==> forall i :: 0 <= i < |rs| ==> Unchanged(view, rs[i])
  {
    if rs != [] {
      var n := |rs| - 1;
      NothingChanged(view, rs[..n]);
      assert forall i :: 0 <= i < n ==> rs[..n][i] == rs[i];
    }
  }

  lemma NothingStaled(log: seq<Record>, s: Snapshot, now: nat)
    ensures Staled(log, s, Incremental, now) == [] <==> NoActiveDrift(log, s)
  {
    var view := Latest(log);
    NothingToStale(Values(view), DropRule(s, Incremental), now);
    AllValues(view, (r: Record) => !(r.status.Active? && Drifted(s, r)));
  }

  lemma NothingNew(log: seq<Record>, s: Snapshot)
    ensures NewRecords(log, s, Incremental) == [] <==>
      forall i :: 0 <= i < |s.matches| ==> Current(log, s, s.matches[i])
  {
    NothingChanged(Latest(log), FreshRecords(s));
    forall i | 0 <= i < |s.matches|
      ensures Unchanged(Latest(log), FreshRecords(s)[i]) <==> Current(log, s, s.matches[i])
    {
    }
  }

  /** A run leaves the log as it is exactly when the log is steady, on any snapshot. */
  lemma NoOpIsSteady(log: seq<Record>, s: Snapshot, now: nat)
    ensures BuildLog(log, s, Incremental, now) == log <==> Steady(log, s)
  {
    NothingStaled(log, s, now);
    NothingNew(log, s);
    var staled, added := Staled(log, s, Incremental, now), StampAll(NewRecords(log, s, Incremental), now);
    assert |log + staled + added| == |log| + |staled| + |added|;
  }

  // ------------------------------------------------- when runs do not settle

  lemma UnrecognisedIsNeverSteady(log: seq<Record>, s: Snapshot, i: nat)
    requires WellRead(s) && i < |s.matches| && !Recognised(s, s.matches[i])
    ensures !Steady(log, s)
  {
    var k := KeyOf(s.matches[i]);
    ViewKeyed(log, k);
    if Current(log, s, s.matches[i]) {
      FreshDrift(s, i, Latest(log).at[k]);
    }
  }

  /** One link cannot carry two hashes. */
  lemma DisagreementIsNeverSteady(log: seq<Record>, s: Snapshot)
    requires !SharedKeysAgree(s)
    ensures !Steady(log, s)
  {
    var i, j :| 0 <= i < j < |s.matches| && KeyOf(s.matches[i]) == KeyOf(s.matches[j])
      && s.codeSha(s.matches[i].code) != s.codeSha(s.matches[j].code);
    assert !(Current(log, s, s.matches[i]) && Current(log, s, s.matches[j]));
  }

  /** A snapshot that does not settle makes every run write, whatever the log. */
  lemma UnsettledKeepsWriting(log: seq<Record>, s: Snapshot, now: nat)
    requires WellRead(s) && !Settles(s)
    ensures !Steady(log, s) && BuildLog(log, s, Incremental, now) != log
  {
    if !AllRecognised(s) {
      var i :| 0 <= i < |s.matches| && !Recognised(s, s.matches[i]);
      UnrecognisedIsNeverSteady(log, s, i);
    } else {
      DisagreementIsNeverSteady(log, s);
    }
    NoOpIsSteady(log, s, now);
  }

  /** An incremental run reaches a steady log exactly when the snapshot settles. */
  lemma SteadyExactly(log: seq<Record>, s: Snapshot, now: nat)
    requires WellRead(s)
    ensures Steady(BuildLog(log, s, Incremental, now), s) <==> Settles(s)
  {
    if Settles(s) {
      IncrementalBuildIsSteady(log, s, now);
    } else {
      UnsettledKeepsWriting(BuildLog(log, s, Incremental, now), s, now);
    }
  }

  /** Running again on the same graphs and baselines leaves the log as it is under the same
      condition; otherwise every further run writes. */
  lemma SecondRunIsNoOpExactly(log: seq<Record>, s: Snapshot, now: nat, later: nat)
    requires WellRead(s)
    ensures var once := BuildLog(log, s, Incremental, now);
      BuildLog(once, s, Incremental, later) == once <==> Settles(s)
  {
    SteadyExactly(log, s, now);
    NoOpIsSteady(BuildLog(log, s, Incremental, now), s, later);
  }

  /** A function that says nothing has a hash but one thing. */
  function OnlyHash<T(==)>(x: T, sha: string): T -> Option<string> { y => if y == x then Some(sha) else None }

  function NoHash<T>(): T -> Option<string> { _ => None }

  ghost predicate EndOnly(c: Identity) { c.start.None? && c.end.Some? }

  /** The identity an end-only symbol is read back as. */
  function Lineless(c: Identity): Identity { c.(end := None) }

  lemma EndOnlyReadsBack(m: Match)
    requires m.code.start.None?
    ensures IdentityOf(KeyOf(m)) == Lineless(m.code)
  {
  }

  /** A symbol with an end line and no start line that is matched alone: its record reads back as a
      symbol that was never read, so every run stales or rewrites it. */
  lemma EndOnlySymbolKeepsWriting(log: seq<Record>, now: nat, a: Anchor, c: Identity, score: real, projectId: string)
    requires EndOnly(c)
    ensures var s := Snapshot(projectId, {a}, {c}, NoHash(), NoHash(), [Match(a, c, score)]);
      WellRead(s) && !AllRecognised(s) && SharedKeysAgree(s) && BuildLog(log, s, Incremental, now) != log
  {
    var s := Snapshot(projectId, {a}, {c}, NoHash(), NoHash(), [Match(a, c, score)]);
    EndOnlyReadsBack(s.matches[0]);
    assert Lineless(c) != c;
    assert !Recognised(s, s.matches[0]);
    UnsettledKeepsWriting(log, s, now);
  }

  /** An end-only symbol and its lineless twin, both matched in one paragraph, only the twin's file
      having a known hash. */
  function Twins(a: Anchor, c: Identity, score: real, projectId: string, sha: string): Snapshot {
    Snapshot(projectId, {a}, {c, Lineless(c)}, NoHash(), OnlyHash(Lineless(c), sha),
             [Match(a, c, score), Match(a, Lineless(c), score)])
  }

  lemma TwinsRecognised(a: Anchor, c: Identity, score: real, projectId: string, sha: string)
    requires EndOnly(c)
    ensures WellRead(Twins(a, c, score, projectId, sha)) && AllRecognised(Twins(a, c, score, projectId, sha))
  {
    var s := Twins(a, c, score, projectId, sha);
    forall i | 0 <= i < |s.matches|
      ensures Recognised(s, s.matches[i])
    {
      EndOnlyReadsBack(s.matches[i]);
    }
  }

  lemma TwinsDisagree(a: Anchor, c: Identity, score: real, projectId: string, sha: string)
    requires EndOnly(c)
    ensures !SharedKeysAgree(Twins(a, c, score, projectId, sha))
  {
    var s := Twins(a, c, score, projectId, sha);
    assert KeyOf(s.matches[0]) == KeyOf(s.matches[1]);
    assert s.codeSha(s.matches[0].code) == None && s.codeSha(s.matches[1].code) == Some(sha);
  }

  /** Both are recognised, but they are stored under one key and keep replacing each other. */
  lemma TwinsKeepWriting(log: seq<Record>, now: nat, a: Anchor, c: Identity, score: real, projectId: string,
      sha: string)
    requires EndOnly(c)
    ensures var s := Twins(a, c, score, projectId, sha);
      WellRead(s) && AllRecognised(s) && !SharedKeysAgree(s) && BuildLog(log, s, Incremental, now) != log
  {
    TwinsRecognised(a, c, score, projectId, sha);
    TwinsDisagree(a, c, score, projectId, sha);
    UnsettledKeepsWriting(log, Twins(a, c, score, projectId, sha), now);
  }

  /** Line numbers decide recognition: a symbol with a start line, or with none at all, is
      always recognised; one with only an end line needs a lineless twin in the same place. */
  lemma LinesDecideRecognition(s: Snapshot, i: nat)
    requires WellRead(s) && i < |s.matches|
    ensures var c := s.matches[i].code;
      if c.start.Some? || c.end.None? then Recognised(s, s.matches[i])
      else Recognised(s, s.matches[i]) ==> c.(end := None) in s.symbols
  {
    assert IdentityOf(KeyOf(s.matches[i])) ==
      if s.matches[i].code.start.Some? then s.matches[i].code else s.matches[i].code.(end := None);
  }

  // ------------------------------------------------------------------ reconcile

  ghost function ActiveView(log: seq<Record>): map<Key, Record> {
    map k | k in Latest(log).at && Latest(log).at[k].status.Active? :: Latest(log).at[k]
  }

  /** The match set of a snapshot, as the records a run would write. */
  ghost function FreshView(s: Snapshot, now: nat): map<Key, Record> {
    map k | k in Latest(FreshRecords(s)).at :: Stamp(Latest(FreshRecords(s)).at[k], now)
  }

  lemma FreshIsActive(s: Snapshot, k: Key)
    ensures FreshFor(s, k).Some? ==> FreshFor(s, k).value.status.Active?
    ensures Lookup(Latest(FreshRecords(s)), k) == FreshFor(s, k)
  {
    FreshForMeans(s, k);
    LatestIsLastWith(FreshRecords(s), k);
  }

  /** What a reconcile shows active under a key is the last match stored under it. */
  lemma ReconciledKey(log: seq<Record>, s: Snapshot, mode: Mode, now: nat, k: Key)
    requires !mode.Incremental?
    ensures var shown, found := Lookup(Latest(BuildLog(log, s, mode, now)), k), FreshFor(s, k);
      if found.Some? then shown == Some(Stamp(found.value, now)) && found.value.status.Active?
      else shown.Some? ==> shown.value.status.Stale?
  {
    BuildLookup(log, s, mode, now, k);
    FreshIsActive(s, k);
  }

  /** After either form of reconcile the active links are exactly the fresh matches, with
      their scores and hashes, whatever was stored before. */
  lemma ReconcileShowsExactlyTheMatches(log: seq<Record>, s: Snapshot, mode: Mode, now: nat)
    requires !mode.Incremental?
    ensures ActiveView(BuildLog(log, s, mode, now)) == FreshView(s, now)
  {
    var after := BuildLog(log, s, mode, now);
    forall k: Key
      ensures k in ActiveView(after) <==> k in FreshView(s, now)
      ensures k in FreshView(s, now) ==> ActiveView(after)[k] == FreshView(s, now)[k]
    {
      FreshIsActive(s, k);
      ReconciledKey(log, s, mode, now, k);
    }
  }
}
