/** The two halves of the store on disk: links.jsonl as text, beside the tables of links.db.
    Every write goes to both, and staling reads its records back from the text. */
module DualStore {
  import opened Common
  import opened Json
  import opened Records
  import opened LogText
  import LogFile
  import Keys
  import Tables
  import opened Store

  // ------------------------------------------------------------ fields of a record

  function Fields(names: seq<string>, values: seq<Json>): seq<Member>
    requires |names| == |values|
  {
    seq(|names|, i requires 0 <= i < |names| => Member(names[i], values[i]))
  }

  lemma {:induction false} GetField(names: seq<string>, values: seq<Json>, i: nat)
    requires i < |names| == |values| && Distinct(names)
    ensures GetFrom(Fields(names, values), names[i]) == values[i]
  {
    var n := |names| - 1;
    if i < n {
      GetField(names[..n], values[..n], i);
      assert Fields(names, values)[..n] == Fields(names[..n], values[..n]);
      assert names[i] != names[n];
    }
  }

  // -------------------------------------------------------------------- the codec

  /** How scores are printed and read: repr and float. */
  datatype Numbers = Numbers(show: real -> string, read: string -> real)

  /** A score that survives being printed and read. */
  ghost predicate Shows(n: Numbers, x: real) { WellFormed(Num(n.show(x))) && n.read(n.show(x)) == x }

  const DOC_FIELDS := ["doc_id", "paragraph_id", "source_sha"]
  const CODE_FIELDS := ["lines", "name", "path", "source_sha", "target_type"]
  const TOP_FIELDS := ["code", "created_at", "doc", "project_id", "provenance", "relation", "score"]

  // Values that may be missing are written as null.

  function PutText(s: Option<string>): Json { if s.Some? then Str(s.value) else Null }
  function TakeText(v: Json): Option<string> { if v.Str? then Some(v.text) else None }

  function PutTime(t: Option<nat>): Json { if t.Some? then Str(Keys.PrintNat(t.value)) else Null }
  function TakeTime(v: Json): Option<nat> {
    if v.Str? && Keys.ParseNat(v.text) >= 0 then Some(Keys.ParseNat(v.text)) else None
  }

  function PutLine(l: Option<int>): Json { if l.Some? then Num(Keys.PrintInt(l.value)) else Null }
  function TakeLine(v: Json): Option<int> { if v.Num? then Some(Keys.ParseInt(v.token)) else None }

  function PutLines(l: Lines): Json { if l.Some? then Arr([PutLine(l.value.0), PutLine(l.value.1)]) else Null }
  function TakeLines(v: Json): Lines {
    if v.Arr? && |v.items| == 2 then Some((TakeLine(v.items[0]), TakeLine(v.items[1]))) else None
  }

  function TextOf(v: Json): string { if v.Str? then v.text else "" }

  function DocJson(r: Record): Json {
    Obj(Fields(DOC_FIELDS, [Str(r.key.docId), r.key.paraId, PutText(r.docSha)]))
  }

  function CodeJson(r: Record): Json {
    Obj(Fields(CODE_FIELDS,
      [PutLines(r.key.lines), Str(r.key.name), Str(r.key.path), PutText(r.codeSha), Str(Tables.KindText(r.key.kind))]))
  }

  function TopFields(n: Numbers, r: Record): seq<Member> {
    Fields(TOP_FIELDS,
      [CodeJson(r), PutTime(r.createdAt), DocJson(r), Str(r.projectId), Str(r.provenance), Str(r.relation),
        Num(n.show(r.score))])
  }

  function StaledField(r: Record): seq<Member> {
    if r.staledAt.Some? then [Member("staled_at", PutTime(r.staledAt))] else []
  }

  function StatusField(s: Status): Member { Member("status", Str(if s.Active? then "active" else "stale")) }

  /** A record as an object with its keys sorted; staled_at is there only once set. */
  function ToJson(n: Numbers, r: Record): Json { Obj(TopFields(n, r) + StaledField(r) + [StatusField(r.status)]) }

  /** The fields the readers look at, taken from a decoded object. */
  function FromJson(n: Numbers, v: Json): Record {
    var doc, code, score := Get(v, "doc"), Get(v, "code"), Get(v, "score");
    Record(
      Key(TextOf(Get(doc, "doc_id")), Get(doc, "paragraph_id"), TextOf(Get(code, "path")), TextOf(Get(code, "name")),
          TakeLines(Get(code, "lines")), if Get(code, "target_type") == Str("endpoint") then Endpoint else Symbol),
      TextOf(Get(v, "project_id")), TextOf(Get(v, "relation")), TextOf(Get(v, "provenance")),
      if score.Num? then n.read(score.token) else 0.0,
      if Get(v, "status") == Str("stale") then Stale else Active,
      TakeTime(Get(v, "created_at")), TakeTime(Get(v, "staled_at")),
      TakeText(Get(doc, "source_sha")), TakeText(Get(code, "source_sha")))
  }

  // ------------------------------------------------------------------- round trip

  lemma TimeReadsBack(t: Option<nat>)
    ensures TakeTime(PutTime(t)) == t
  {
    if t.Some? {
      Keys.ParsePrint(t.value);
    }
  }

  lemma LineReadsBack(l: Option<int>)
    ensures TakeLine(PutLine(l)) == l && WellFormed(PutLine(l))
  {
    if l.Some? {
      Keys.IntReadsBack(l.value);
    }
  }

  lemma LinesReadBack(l: Lines)
    ensures TakeLines(PutLines(l)) == l && WellFormed(PutLines(l))
  {
    if l.Some? {
      LineReadsBack(l.value.0);
      LineReadsBack(l.value.1);
    }
  }

  lemma DocFieldsDistinct()
    ensures Distinct(DOC_FIELDS)
  {
  }

  lemma CodeFieldsDistinct()
    ensures Distinct(CODE_FIELDS)
  {
  }

  lemma TopFieldsDistinct()
    ensures Distinct(TOP_FIELDS)
  {
  }

  lemma DocReadsBack(r: Record)
    ensures var doc := DocJson(r);
      Get(doc, "doc_id") == Str(r.key.docId) && Get(doc, "paragraph_id") == r.key.paraId
      && TakeText(Get(doc, "source_sha")) == r.docSha
  {
    var values := [Str(r.key.docId), r.key.paraId, PutText(r.docSha)];
    DocFieldsDistinct();
    GetField(DOC_FIELDS, values, 0);
    GetField(DOC_FIELDS, values, 1);
    GetField(DOC_FIELDS, values, 2);
  }

  lemma KindReadsBack(k: Kind)
    ensures Tables.KindText(k) == "endpoint" <==> k.Endpoint?
  {
  }

  lemma CodeReadsBack(r: Record)
    ensures var code := CodeJson(r);
      Get(code, "path") == Str(r.key.path) && Get(code, "name") == Str(r.key.name)
      && TakeLines(Get(code, "lines")) == r.key.lines && TakeText(Get(code, "source_sha")) == r.codeSha
      && (Get(code, "target_type") == Str("endpoint") <==> r.key.kind.Endpoint?)
  {
    var values :=
      [PutLines(r.key.lines), Str(r.key.name), Str(r.key.path), PutText(r.codeSha), Str(Tables.KindText(r.key.kind))];
    CodeFieldsDistinct();
    GetField(CODE_FIELDS, values, 0);
    GetField(CODE_FIELDS, values, 1);
    GetField(CODE_FIELDS, values, 2);
    GetField(CODE_FIELDS, values, 3);
    GetField(CODE_FIELDS, values, 4);
    LinesReadBack(r.key.lines);
    KindReadsBack(r.key.kind);
  }

  /** The lifecycle fields stand last and hide none of the others. */
  lemma LifecycleReadsBack(n: Numbers, r: Record)
    ensures (Get(ToJson(n, r), "status") == Str("stale")) <==> r.status.Stale?
    ensures forall i :: 0 <= i < |TOP_FIELDS| ==>
      Get(ToJson(n, r), TOP_FIELDS[i]) == GetFrom(TopFields(n, r), TOP_FIELDS[i])
    ensures Get(ToJson(n, r), "staled_at") == PutTime(r.staledAt)
  {
    var top, staled, status := TopFields(n, r), StaledField(r), StatusField(r.status);
    forall name | name != status.name
      ensures Get(ToJson(n, r), name) == GetFrom(top + staled, name)
    {
      GetSnoc(top + staled, status, name);
    }
    forall name | name != "staled_at"
      ensures GetFrom(top + staled, name) == GetFrom(top, name)
    {
      StaledHides(top, r, name);
    }
    GetSnoc(top + staled, status, "status");
    StaledReadsBack(n, r);
    NotLifecycle();
  }

  lemma StaledHides(top: seq<Member>, r: Record, name: string)
    requires name != "staled_at"
    ensures GetFrom(top + StaledField(r), name) == GetFrom(top, name)
  {
    if r.staledAt.Some? {
      GetSnoc(top, StaledField(r)[0], name);
    } else {
      assert top + StaledField(r) == top;
    }
  }

  lemma NotLifecycle()
    ensures forall i :: 0 <= i < |TOP_FIELDS| ==> TOP_FIELDS[i] != "status" && TOP_FIELDS[i] != "staled_at"
  {
  }

  lemma {:induction false} GetAbsent(ms: seq<Member>, name: string)
    requires forall i :: 0 <= i < |ms| ==> ms[i].name != name
    ensures GetFrom(ms, name) == Null
  {
    if ms != [] {
      GetAbsent(ms[..|ms| - 1], name);
    }
  }

  lemma StaledReadsBack(n: Numbers, r: Record)
    ensures GetFrom(TopFields(n, r) + StaledField(r), "staled_at") == PutTime(r.staledAt)
  {
    var top := TopFields(n, r);
    if r.staledAt.Some? {
      GetSnoc(top, StaledField(r)[0], "staled_at");
    } else {
      NotLifecycle();
      assert top + StaledField(r) == top;
      GetAbsent(top, "staled_at");
    }
  }

  lemma TopReadsBack(n: Numbers, r: Record)
    ensures var top := TopFields(n, r);
      && GetFrom(top, "code") == CodeJson(r) && GetFrom(top, "created_at") == PutTime(r.createdAt)
      && GetFrom(top, "doc") == DocJson(r) && GetFrom(top, "project_id") == Str(r.projectId)
      && GetFrom(top, "provenance") == Str(r.provenance) && GetFrom(top, "relation") == Str(r.relation)
      && GetFrom(top, "score") == Num(n.show(r.score))
  {
    var values :=
      [CodeJson(r), PutTime(r.createdAt), DocJson(r), Str(r.projectId), Str(r.provenance), Str(r.relation),
        Num(n.show(r.score))];
    TopFieldsDistinct();
    GetField(TOP_FIELDS, values, 0);
    GetField(TOP_FIELDS, values, 1);
    GetField(TOP_FIELDS, values, 2);
    GetField(TOP_FIELDS, values, 3);
    GetField(TOP_FIELDS, values, 4);
    GetField(TOP_FIELDS, values, 5);
    GetField(TOP_FIELDS, values, 6);
  }

  lemma TopIsReached(n: Numbers, r: Record)
    ensures var v, top := ToJson(n, r), TopFields(n, r);
      && Get(v, "code") == GetFrom(top, "code") && Get(v, "created_at") == GetFrom(top, "created_at")
      && Get(v, "doc") == GetFrom(top, "doc") && Get(v, "project_id") == GetFrom(top, "project_id")
      && Get(v, "provenance") == GetFrom(top, "provenance") && Get(v, "relation") == GetFrom(top, "relation")
      && Get(v, "score") == GetFrom(top, "score")
  {
    LifecycleReadsBack(n, r);
    var v, top := ToJson(n, r), TopFields(n, r);
    assert forall i :: 0 <= i < |TOP_FIELDS| ==> Get(v, TOP_FIELDS[i]) == GetFrom(top, TOP_FIELDS[i]);
    assert Get(v, TOP_FIELDS[0]) == GetFrom(top, TOP_FIELDS[0]);
    assert Get(v, TOP_FIELDS[1]) == GetFrom(top, TOP_FIELDS[1]);
    assert Get(v, TOP_FIELDS[2]) == GetFrom(top, TOP_FIELDS[2]);
    assert Get(v, TOP_FIELDS[3]) == GetFrom(top, TOP_FIELDS[3]);
    assert Get(v, TOP_FIELDS[4]) == GetFrom(top, TOP_FIELDS[4]);
    assert Get(v, TOP_FIELDS[5]) == GetFrom(top, TOP_FIELDS[5]);
    assert Get(v, TOP_FIELDS[6]) == GetFrom(top, TOP_FIELDS[6]);
  }

  /** What is read from a written record is that record. */
  lemma RecordReadsBack(n: Numbers, r: Record)
    requires Shows(n, r.score)
    ensures FromJson(n, ToJson(n, r)) == r
  {
    TopReadsBack(n, r);
    TopIsReached(n, r);
    LifecycleReadsBack(n, r);
    DocReadsBack(r);
    CodeReadsBack(r);
    TimeReadsBack(r.createdAt);
    TimeReadsBack(r.staledAt);
  }

  /** A record that JSON can hold. */
  ghost predicate Proper(n: Numbers, r: Record) { WellFormed(r.key.paraId) && Shows(n, r.score) }

  lemma RecordWellFormed(n: Numbers, r: Record)
    requires Proper(n, r)
    ensures LogFile.Loggable(ToJson(n, r))
  {
    LinesReadBack(r.key.lines);
    FieldsWellFormed(DOC_FIELDS, [Str(r.key.docId), r.key.paraId, PutText(r.docSha)]);
    FieldsWellFormed(CODE_FIELDS,
      [PutLines(r.key.lines), Str(r.key.name), Str(r.key.path), PutText(r.codeSha), Str(Tables.KindText(r.key.kind))]);
    FieldsWellFormed(TOP_FIELDS,
      [CodeJson(r), PutTime(r.createdAt), DocJson(r), Str(r.projectId), Str(r.provenance), Str(r.relation),
        Num(n.show(r.score))]);
    LifecycleWellFormed(TopFields(n, r), r);
  }

  lemma FieldsWellFormed(names: seq<string>, values: seq<Json>)
    requires |names| == |values| && forall i :: 0 <= i < |values| ==> WellFormed(values[i])
    ensures WellFormed(Obj(Fields(names, values)))
  {
    forall m | m in Fields(names, values)
      ensures WellFormed(m.value)
    {
      var i :| 0 <= i < |names| && Fields(names, values)[i] == m;
    }
  }

  lemma LifecycleWellFormed(top: seq<Member>, r: Record)
    requires WellFormed(Obj(top))
    ensures WellFormed(Obj(top + StaledField(r) + [StatusField(r.status)]))
  {
    assert forall m :: m in StaledField(r) ==> m.value.Str?;
  }

  // ---------------------------------------------------------------- the file's steps

  function Encode(n: Numbers, rs: seq<Record>): seq<Json> { seq(|rs|, i requires 0 <= i < |rs| => ToJson(n, rs[i])) }

  function ReadAll(n: Numbers, vs: seq<Json>): seq<Record> { seq(|vs|, i requires 0 <= i < |vs| => FromJson(n, vs[i])) }

  /** The records that load_links finds in the file. */
  function ReadLog(n: Numbers, text: string): seq<Record> { ReadAll(n, LogFile.Load(text)) }

  function Rewrite(n: Numbers, rs: seq<Record>): string { Body(Texts(LogFile.PrintAll(Encode(n, rs)))) }

  function AppendFile(n: Numbers, text: string, rs: seq<Record>): string {
    LogFile.StepText(text, LogFile.Append(Encode(n, rs)))
  }

  /** The same steps as on the log, on characters; staling decides on what it reads back. */
  function StepFile(n: Numbers, text: string, op: Op): string {
    match op
    case AppendOp(records, now) => if AllAcceptable(records) then AppendFile(n, text, StampAll(records, now)) else text
    case StaleOp(drop, now) => AppendFile(n, text, StaleCopies(ReadLog(n, text), drop, now))
    case CompactOp(records, now) => if AllAcceptable(records) then Rewrite(n, StampAll(records, now)) else text
  }

  function RunFile(n: Numbers, ops: seq<Op>): string {
    if ops == [] then "" else StepFile(n, RunFile(n, ops[..|ops| - 1]), ops[|ops| - 1])
  }

  ghost predicate AllProper(n: Numbers, rs: seq<Record>) { forall i :: 0 <= i < |rs| ==> Proper(n, rs[i]) }

  lemma EncodedReadsBack(n: Numbers, rs: seq<Record>)
    requires AllProper(n, rs)
    ensures LogFile.AllLoggable(Encode(n, rs)) && ReadAll(n, Encode(n, rs)) == rs
  {
    forall i | 0 <= i < |rs|
      ensures LogFile.Loggable(Encode(n, rs)[i]) && FromJson(n, Encode(n, rs)[i]) == rs[i]
    {
      RecordWellFormed(n, rs[i]);
      RecordReadsBack(n, rs[i]);
    }
  }

  lemma AppendedIsRead(n: Numbers, text: string, rs: seq<Record>)
    requires AllProper(n, rs)
    ensures ReadLog(n, AppendFile(n, text, rs)) == ReadLog(n, text) + rs
  {
    EncodedReadsBack(n, rs);
    LogFile.AppendKeepsEarlier(text, Encode(n, rs));
    ReadAllConcat(n, LogFile.Load(text), Encode(n, rs));
  }

  lemma ReadAllConcat(n: Numbers, a: seq<Json>, b: seq<Json>)
    ensures ReadAll(n, a + b) == ReadAll(n, a) + ReadAll(n, b)
  {
  }

  lemma RewrittenIsRead(n: Numbers, rs: seq<Record>)
    requires AllProper(n, rs)
    ensures ReadLog(n, Rewrite(n, rs)) == rs
  {
    EncodedReadsBack(n, rs);
    LogFile.LoadBody(Encode(n, rs));
  }

  ghost predicate ProperOp(n: Numbers, op: Op) { !op.StaleOp? ==> AllProper(n, op.records) }

  lemma {:induction false} StaleCopiesProper(n: Numbers, rs: seq<Record>, drop: Record -> bool, now: nat)
    requires AllProper(n, rs)
    ensures AllProper(n, StaleCopiesOf(rs, drop, now))
  {
    if rs != [] {
      StaleCopiesProper(n, rs[..|rs| - 1], drop, now);
    }
  }

  lemma StaledProper(n: Numbers, log: seq<Record>, drop: Record -> bool, now: nat)
    requires AllProper(n, log)
    ensures AllProper(n, StaleCopies(log, drop, now))
  {
    var rs := Values(Latest(log));
    forall i | 0 <= i < |rs|
      ensures Proper(n, rs[i])
    {
      ViewHoldsLogged(log, i);
    }
    StaleCopiesProper(n, rs, drop, now);
  }

  lemma StepReadsBack(n: Numbers, text: string, log: seq<Record>, op: Op)
    requires AllProper(n, log) && ReadLog(n, text) == log && ProperOp(n, op)
    ensures AllProper(n, StepLog(log, op)) && ReadLog(n, StepFile(n, text, op)) == StepLog(log, op)
  {
    match op
    case AppendOp(records, now) => AppendedIsRead(n, text, StampAll(records, now));
    case StaleOp(drop, now) =>
      StaledProper(n, log, drop, now);
      AppendedIsRead(n, text, StaleCopies(log, drop, now));
    case CompactOp(records, now) => RewrittenIsRead(n, StampAll(records, now));
  }

  lemma EmptyFile(n: Numbers)
    ensures ReadLog(n, "") == []
  {
    LogFile.LoadEmpty();
  }

  /** After every run of the store, reading the file gives back the log record by record. */
  lemma {:induction false} FileHoldsTheLog(n: Numbers, ops: seq<Op>)
    requires forall i :: 0 <= i < |ops| ==> ProperOp(n, ops[i])
    ensures AllProper(n, RunLog(ops)) && ReadLog(n, RunFile(n, ops)) == RunLog(ops)
  {
    if ops == [] {
      EmptyFile(n);
    } else {
      var m := |ops| - 1;
      FileHoldsTheLog(n, ops[..m]);
      StepReadsBack(n, RunFile(n, ops[..m]), RunLog(ops[..m]), ops[m]);
    }
  }

  /** The two ways latest_links has of reading, through the tables and through the file, agree
      after every run with NUL-free paths exactly when no logged span lacks its start. */
  method ReadBothWays(n: Numbers, ops: seq<Op>) returns (served: seq<Record>, reread: seq<Record>)
    requires forall i :: 0 <= i < |ops| ==> ProperOp(n, ops[i])
    ensures reread == Values(Latest(RunLog(ops)))
    ensures Tables.AllClean(RunLog(ops)) ==> (served == reread <==> AllCanonical(RunLog(ops)))
  {
    FileHoldsTheLog(n, ops);
    var active, stale;
    served, active, stale := Run(ops);
    reread := LatestRecords(ReadLog(n, RunFile(n, ops)));
  }

  // --------------------------------------------------- scores of four decimal places

  function ShowFour(x: real): string { Keys.PrintNat(if x < 0.0 then 0 else (x * 10000.0).Floor) + "e-4" }

  function ReadFour(s: string): real { if |s| < 3 then 0.0 else Keys.ParseNat(s[..|s| - 3]) as real / 10000.0 }

  /** Printing in units of a ten-thousandth. */
  const FOUR_PLACES := Numbers(ShowFour, ReadFour)

  /** It is exact for every score that rounding to four places leaves. */
  lemma FourPlacesShow(k: nat)
    ensures Shows(FOUR_PLACES, k as real / 10000.0)
  {
    var x := k as real / 10000.0;
    var digits, s := Keys.PrintNat(k), ShowFour(x);
    assert x * 10000.0 == k as real;
    assert s == digits + "e-4" && s[..|s| - 3] == digits;
    Keys.ParsePrint(k);
    assert forall i :: 0 <= i < |s| ==> NumChar(s[i]);
  }

  /** Any acceptable record with such a score is written and read back. */
  lemma FourPlaceRecordIsRead(r: Record, k: nat, now: nat)
    requires Acceptable(r) && WellFormed(r.key.paraId) && r.score == k as real / 10000.0
    ensures ReadLog(FOUR_PLACES, RunFile(FOUR_PLACES, [AppendOp([r], now)])) == [Stamp(r, now)]
  {
    var ops := [AppendOp([r], now)];
    FourPlacesShow(k);
    FileHoldsTheLog(FOUR_PLACES, ops);
    assert ops[..0] == [] && RunLog(ops) == StepLog([], ops[0]);
    assert StampAll([r], now) == [Stamp(r, now)];
  }
}
