/** links.jsonl: writing, tearing and reading back (link_store.py). */
module LogFile {
  import opened Common
  import opened Json
  import opened LogText

  ghost predicate Loggable(v: Json) { WellFormed(v) && v.Obj? }

  ghost predicate AllLoggable(vs: seq<Json>) { forall i :: 0 <= i < |vs| ==> Loggable(vs[i]) }

  /** The record on one line; a line that is not a JSON object holds none. */
  function Decode(line: string): seq<Json> {
    match Loads(line)
    case None => []
    case Some(v) => if v.Obj? then [v] else []
  }

  function DecodeAll(decode: string -> seq<Json>, lines: seq<string>): seq<Json> {
    if lines == [] then [] else decode(lines[0]) + DecodeAll(decode, lines[1..])
  }

  function Load(text: string): seq<Json> { DecodeAll(Decode, Lines(text)) }

  lemma {:induction false} DecodeAllConcat(decode: string -> seq<Json>, a: seq<string>, b: seq<string>)
    ensures DecodeAll(decode, a + b) == DecodeAll(decode, a) + DecodeAll(decode, b)
  {
    if a == [] {
      assert a + b == b;
    } else {
      DecodeAllConcat(decode, a[1..], b);
      ConsConcat(a, b);
      ConcatAssociates(decode(a[0]), DecodeAll(decode, a[1..]), DecodeAll(decode, b));
    }
  }

  lemma ConsConcat(a: seq<string>, b: seq<string>)
    requires a != []
    ensures a + b != [] && (a + b)[0] == a[0] && (a + b)[1..] == a[1..] + b
  {
  }

  lemma ConcatAssociates<T>(a: seq<T>, b: seq<T>, c: seq<T>)
    ensures a + (b + c) == a + b + c
  {
  }

  /** load_links: one pass over the lines of the file. */
  method LoadLinks(text: string) returns (records: seq<Json>)
    ensures records == Load(text)
  {
    records := [];
    var lines := Lines(text);
    for i := 0 to |lines|
      invariant records + DecodeAll(Decode, lines[i..]) == Load(text)
    {
      assert lines[i..][1..] == lines[i + 1..];
      records := records + Decode(lines[i]);
    }
  }

  // ----------------------------------------------------------- printed entries

  type Line = Entry<Json>

  ghost predicate Printed(e: Line) { Loggable(e.record) && e.full == Dumps(e.record) }

  ghost predicate AllPrinted(es: seq<Line>) { forall i :: 0 <= i < |es| ==> Printed(es[i]) }

  function Print(v: Json): Line { var full := Dumps(v); Entry(v, full, |full|) }

  function PrintAll(vs: seq<Json>): seq<Line> { seq(|vs|, i requires 0 <= i < |vs| => Print(vs[i])) }

  lemma PrintIsShaped(v: Json)
    requires Loggable(v)
    ensures Printed(Print(v)) && Shaped(Print(v))
  {
    DumpsStart(v);
    DumpsPrintable(v);
  }

  lemma PrintAllShaped(vs: seq<Json>)
    requires AllLoggable(vs)
    ensures AllPrinted(PrintAll(vs)) && AllShaped(PrintAll(vs)) && AllWhole(PrintAll(vs))
  {
    forall i | 0 <= i < |vs|
      ensures Printed(PrintAll(vs)[i]) && Shaped(PrintAll(vs)[i])
    {
      PrintIsShaped(vs[i]);
    }
  }

  lemma WholePrinted(vs: seq<Json>)
    requires AllLoggable(vs)
    ensures Whole(PrintAll(vs)) == vs
  {
    PrintAllShaped(vs);
    WholeIsAll(PrintAll(vs));
    assert RecordsOf(PrintAll(vs)) == vs;
  }

  /** A line yields its record exactly when it was written whole. */
  lemma DecodeLine(e: Line)
    requires Shaped(e) && Printed(e)
    ensures Decode(LineOf(e)) == Whole([e])
  {
    if e.kept < |e.full| {
      TornObjectIsUndecodable(e.record, e.kept);
    } else {
      assert LineOf(e) == Dumps(e.record);
      LoadsDumps(e.record);
    }
  }

  lemma LoadSplits(a: string, b: string)
    ensures Load(a + "\n" + b) == Load(a) + Load(b)
  {
    LinesSplit(a, b);
    DecodeAllConcat(Decode, Lines(a), Lines(b));
  }

  lemma LoadLine(e: Line)
    requires Shaped(e) && Printed(e)
    ensures Load(LineOf(e)) == Whole([e])
  {
    LinesUnbroken(LineOf(e));
    DecodeLine(e);
    assert DecodeAll(Decode, [LineOf(e)]) == Decode(LineOf(e)) + [];
  }

  lemma LoadEmpty()
    ensures Load("") == []
  {
    assert Lines("") == [""];
    assert Loads("") == None;
  }

  lemma {:induction false} DecodeLines(decode: string -> seq<Json>, es: seq<Line>)
    requires AllShaped(es)
    requires forall i :: 0 <= i < |es| ==> decode(LineOf(es[i])) == Whole([es[i]])
    ensures DecodeAll(decode, LinesOf(es)) == Whole(es)
  {
    if es != [] {
      DecodeLines(decode, es[1..]);
      LinesOfCons(es);
      WholeCons(es);
    }
  }

  lemma LinesOfCons(es: seq<Line>)
    requires es != [] && AllShaped(es)
    ensures LinesOf(es) != [] && LinesOf(es)[0] == LineOf(es[0]) && LinesOf(es)[1..] == LinesOf(es[1..])
  {
  }

  lemma WholeCons(es: seq<Line>)
    requires es != []
    ensures Whole(es) == Whole([es[0]]) + Whole(es[1..])
  {
    assert [es[0]][1..] == [];
  }

  lemma LoadClosed(es: seq<Line>, tail: string)
    requires AllShaped(es) && AllPrinted(es)
    ensures Load(Closed(es) + tail) == Whole(es) + Load(tail)
  {
    forall i | 0 <= i < |es|
      ensures Decode(LineOf(es[i])) == Whole([es[i]])
    {
      DecodeLine(es[i]);
    }
    LinesOfClosed(es, tail);
    DecodeLines(Decode, es);
    DecodeAllConcat(Decode, LinesOf(es), Lines(tail));
  }

  ghost predicate ValidLog(s: Shape<Json>) {
    ValidShape(s) && AllPrinted(s.closed) && AllPrinted(OpenLine(s))
  }

  /** Reading a torn file returns exactly the records that were written whole, in order. */
  lemma LoadReturnsSurvivors(s: Shape<Json>)
    requires ValidLog(s)
    ensures Load(Text(s)) == Survivors(s)
  {
    if s.open.None? {
      LoadClosed(s.closed, "");
      LoadEmpty();
      assert Closed(s.closed) + "" == Closed(s.closed);
    } else {
      assert Printed(OpenLine(s)[0]);
      LoadClosed(s.closed, LineOf(s.open.value));
      LoadLine(s.open.value);
    }
  }

  // ----------------------------------------- every run of appends and crashes

  /** What happens to the file: a batch is appended, or a crash loses its end. */
  datatype Event = Append(records: seq<Json>) | Crash(at: nat)

  ghost predicate ValidEvent(e: Event) { e.Append? ==> AllLoggable(e.records) }

  function Min(a: nat, b: nat): nat { if a <= b then a else b }

  function StepText(text: string, e: Event): string {
    match e
    case Append(records) => AppendText(text, Texts(PrintAll(records)))
    case Crash(at) => text[..Min(at, |text|)]
  }

  ghost function StepShape(s: Shape<Json>, e: Event): Shape<Json>
    requires ValidShape(s)
  {
    match e
    case Append(records) => AppendShape(s, PrintAll(records))
    case Crash(at) => CutShape(s, Min(at, |Text(s)|))
  }

  lemma {:induction false} CutKeepsPrinted(es: seq<Line>, at: nat)
    requires AllPrinted(es)
    ensures AllPrinted(CutClosed(es, at).closed) && AllPrinted(OpenLine(CutClosed(es, at)))
  {
    if es != [] && at > es[0].kept {
      CutKeepsPrinted(es[1..], at - es[0].kept - 1);
    }
  }

  lemma StepRefines(s: Shape<Json>, e: Event)
    requires ValidLog(s) && ValidEvent(e)
    ensures ValidLog(StepShape(s, e))
    ensures Text(StepShape(s, e)) == StepText(Text(s), e)
  {
    match e
    case Append(records) =>
      PrintAllShaped(records);
      AppendRefines(s, PrintAll(records));
    case Crash(at) =>
      CutRefines(s, Min(at, |Text(s)|));
      CutKeepsPrinted(s.closed, Min(at, |Text(s)|));
      assert s.open.Some? ==> OpenLine(s)[0] == s.open.value;
  }

  function RunText(events: seq<Event>): string {
    if events == [] then ""
    else StepText(RunText(events[..|events| - 1]), events[|events| - 1])
  }

  /** The same run on lines instead of characters. */
  ghost function RunShape(events: seq<Event>): (s: Shape<Json>)
    requires forall i :: 0 <= i < |events| ==> ValidEvent(events[i])
    ensures ValidLog(s) && Text(s) == RunText(events)
  {
    if events == [] then Shape([], None)
    else
      var s, e := RunShape(events[..|events| - 1]), events[|events| - 1];
      StepRefines(s, e);
      StepShape(s, e)
  }

  /** In every run, whatever was torn and whenever, reading the file gives exactly the
      records whose text is still complete, oldest first. */
  lemma EveryRunKeepsWholeRecords(events: seq<Event>)
    requires forall i :: 0 <= i < |events| ==> ValidEvent(events[i])
    ensures Load(RunText(events)) == Survivors(RunShape(events))
  {
    LoadReturnsSurvivors(RunShape(events));
  }

  lemma LoadBody(records: seq<Json>)
    requires AllLoggable(records)
    ensures Load(Body(Texts(PrintAll(records)))) == records
  {
    var added := PrintAll(records);
    PrintAllShaped(records);
    ClosedWhole(added);
    WholePrinted(records);
    LoadClosed(added, "");
    LoadEmpty();
    assert Closed(added) + "" == Closed(added);
  }

  lemma LoadJoins(load: string -> seq<Json>, text: string, body: string)
    requires forall a, b :: load(a + "\n" + b) == load(a) + load(b)
    requires load("") == []
    ensures text == "" || text[|text| - 1] == '\n' ==> load(text + body) == load(text) + load(body)
  {
    if text == "" {
      assert text + body == body;
    } else if text[|text| - 1] == '\n' {
      var head := text[..|text| - 1];
      assert text == head + "\n" + "" && text + body == head + "\n" + body;
    }
  }

  /** A later append never disturbs what is already in the file, even foreign text. */
  lemma AppendKeepsEarlier(text: string, records: seq<Json>)
    requires AllLoggable(records)
    ensures Load(StepText(text, Append(records))) == Load(text) + records
  {
    var body := Body(Texts(PrintAll(records)));
    LoadBody(records);
    LoadEmpty();
    forall a, b
      ensures Load(a + "\n" + b) == Load(a) + Load(b)
    {
      LoadSplits(a, b);
    }
    LoadJoins(Load, text, body);
  }

  /** How many of the records printed one per line are complete in the first `at` characters. */
  function Written(records: seq<Json>, at: nat): (n: nat)
    ensures n <= |records|
  {
    Complete(PrintAll(records), at)
  }

  lemma CutPrinted(records: seq<Json>, at: nat)
    requires AllLoggable(records)
    ensures Survivors(CutClosed(PrintAll(records), at)) == records[..Written(records, at)]
  {
    PrintAllShaped(records);
    CutKeepsComplete(PrintAll(records), at);
    assert RecordsOf(PrintAll(records)) == records;
  }

  /** Cutting a freshly written log anywhere and then appending: the records complete
      before the cut, followed by all the new ones. */
  lemma TornTailNeverDamagesLaterRecords(records: seq<Json>, at: nat, later: seq<Json>)
    requires AllLoggable(records) && AllLoggable(later)
    requires at <= |Body(Texts(PrintAll(records)))|
    ensures Load(StepText(Body(Texts(PrintAll(records)))[..at], Append(later)))
      == records[..Written(records, at)] + later
  {
    var es := PrintAll(records);
    PrintAllShaped(records);
    ClosedWhole(es);
    CutPrinted(records, at);
    CutClosedRefines(es, at);
    CutKeepsPrinted(es, at);
    LoadReturnsSurvivors(CutClosed(es, at));
    AppendKeepsEarlier(Body(Texts(es))[..at], later);
  }
}
