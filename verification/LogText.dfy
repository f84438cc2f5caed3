/** The log file as bare text: lines, appends and torn ends.  Entries carry the full text
    of the line that was being written and how much of it reached the file. */
module LogText {
  import opened Common

  datatype Entry<R> = Entry(record: R, full: string, kept: nat)

  /** Lines that end in a line break, and at most one that does not. */
  datatype Shape<R> = Shape(closed: seq<Entry<R>>, open: Option<Entry<R>>)

  ghost predicate Unbroken(s: string) { forall i :: 0 <= i < |s| ==> s[i] != '\n' }

  ghost predicate Shaped<R>(e: Entry<R>) { 0 < e.kept <= |e.full| && Unbroken(e.full) }

  ghost predicate AllShaped<R>(es: seq<Entry<R>>) { forall i :: 0 <= i < |es| ==> Shaped(es[i]) }

  ghost predicate ShapedOpen<R>(o: Option<Entry<R>>) { o.Some? ==> Shaped(o.value) }

  ghost predicate ValidShape<R>(s: Shape<R>) { AllShaped(s.closed) && ShapedOpen(s.open) }

  function LineOf<R>(e: Entry<R>): string
    requires e.kept <= |e.full|
  {
    e.full[..e.kept]
  }

  ghost function Closed<R>(es: seq<Entry<R>>): string
    requires AllShaped(es)
  {
    if es == [] then "" else LineOf(es[0]) + "\n" + Closed(es[1..])
  }

  ghost function Text<R>(s: Shape<R>): string
    requires ValidShape(s)
  {
    if s.open.None? then Closed(s.closed) else Closed(s.closed) + LineOf(s.open.value)
  }

  // -------------------------------------------------------------------- lines

  /** Put a character in front of the first line. */
  function Prepend(c: char, lines: seq<string>): (r: seq<string>)
    requires lines != []
    ensures |r| == |lines|
  {
    lines[0 := [c] + lines[0]]
  }

  /** The pieces between line breaks; a text that ends in a break has an empty last piece. */
  function Lines(text: string): (r: seq<string>)
    ensures r != []
  {
    if text == "" then [""]
    else if text[0] == '\n' then [""] + Lines(text[1..])
    else Prepend(text[0], Lines(text[1..]))
  }

  lemma PrependConcat(c: char, a: seq<string>, b: seq<string>)
    requires a != []
    ensures Prepend(c, a + b) == Prepend(c, a) + b
  {
  }

  lemma {:induction false} LinesSplit(a: string, b: string)
    ensures Lines(a + "\n" + b) == Lines(a) + Lines(b)
  {
    var t := a + "\n" + b;
    if a == "" {
      assert t[0] == '\n' && t[1..] == b;
    } else {
      LinesSplit(a[1..], b);
      assert t[0] == a[0] && t[1..] == a[1..] + "\n" + b;
      PrependConcat(a[0], Lines(a[1..]), Lines(b));
    }
  }

  lemma {:induction false} LinesUnbroken(s: string)
    requires Unbroken(s)
    ensures Lines(s) == [s]
  {
    if s != "" {
      LinesUnbroken(s[1..]);
      assert [s[0]] + s[1..] == s;
    }
  }

  function LinesOf<R>(es: seq<Entry<R>>): seq<string>
    requires forall i :: 0 <= i < |es| ==> es[i].kept <= |es[i].full|
  {
    seq(|es|, i requires 0 <= i < |es| => LineOf(es[i]))
  }

  lemma LineFirst(line: string, others: string, tail: string)
    ensures line + "\n" + others + tail == line + "\n" + (others + tail)
  {
  }

  lemma {:induction false} LinesOfClosed<R>(es: seq<Entry<R>>, tail: string)
    requires AllShaped(es)
    ensures Lines(Closed(es) + tail) == LinesOf(es) + Lines(tail)
  {
    if es == [] {
      assert Closed(es) + tail == tail;
    } else {
      LinesOfClosed(es[1..], tail);
      LinesUnbroken(LineOf(es[0]));
      LinesSplit(LineOf(es[0]), Closed(es[1..]) + tail);
      LineFirst(LineOf(es[0]), Closed(es[1..]), tail);
      assert LinesOf(es) == [LineOf(es[0])] + LinesOf(es[1..]);
    }
  }

  // ----------------------------------------------------------- append and cut

  function Body(lines: seq<string>): string {
    if lines == [] then "" else lines[0] + "\n" + Body(lines[1..])
  }

  /** append_links on the file: a missing final line break is supplied first. */
  function AppendText(text: string, lines: seq<string>): string {
    if lines == [] then text
    else if text != "" && text[|text| - 1] != '\n' then text + "\n" + Body(lines)
    else text + Body(lines)
  }

  function OpenLine<R>(s: Shape<R>): seq<Entry<R>> {
    match s.open
    case None => []
    case Some(e) => [e]
  }

  function AppendShape<R>(s: Shape<R>, added: seq<Entry<R>>): Shape<R> {
    if added == [] then s else Shape(s.closed + OpenLine(s) + added, None)
  }

  function CutClosed<R>(es: seq<Entry<R>>, at: nat): Shape<R> {
    if es == [] || at == 0 then Shape([], None)
    else if at <= es[0].kept then Shape([], Some(es[0].(kept := at)))
    else
      var rest := CutClosed(es[1..], at - es[0].kept - 1);
      Shape([es[0]] + rest.closed, rest.open)
  }

  /** Losing everything from position `at` on. */
  ghost function CutShape<R>(s: Shape<R>, at: nat): Shape<R>
    requires ValidShape(s) && at <= |Text(s)|
  {
    if at <= |Closed(s.closed)| then CutClosed(s.closed, at)
    else Shape(s.closed, Some(s.open.value.(kept := at - |Closed(s.closed)|)))
  }

  lemma {:induction false} ClosedConcat<R>(a: seq<Entry<R>>, b: seq<Entry<R>>)
    requires AllShaped(a) && AllShaped(b)
    ensures Closed(a + b) == Closed(a) + Closed(b)
  {
    if a == [] {
      assert a + b == b;
    } else {
      ClosedConcat(a[1..], b);
      assert (a + b)[1..] == a[1..] + b;
    }
  }

  lemma {:induction false} ClosedEnds<R>(es: seq<Entry<R>>)
    requires es != [] && AllShaped(es)
    ensures Closed(es) != "" && Closed(es)[|Closed(es)| - 1] == '\n'
  {
    if |es| > 1 {
      ClosedEnds(es[1..]);
    }
  }

  function Texts<R>(es: seq<Entry<R>>): seq<string> { seq(|es|, i requires 0 <= i < |es| => es[i].full) }

  ghost predicate AllWhole<R>(es: seq<Entry<R>>) { forall i :: 0 <= i < |es| ==> es[i].kept == |es[i].full| }

  lemma {:induction false} ClosedWhole<R>(es: seq<Entry<R>>)
    requires AllShaped(es) && AllWhole(es)
    ensures Closed(es) == Body(Texts(es))
  {
    if es != [] {
      ClosedWhole(es[1..]);
      assert Texts(es)[1..] == Texts(es[1..]);
      assert LineOf(es[0]) == es[0].full;
    }
  }

  lemma TextEnds<R>(s: Shape<R>)
    requires ValidShape(s)
    ensures Text(s) != "" && Text(s)[|Text(s)| - 1] != '\n' <==> s.open.Some?
  {
    if s.open.Some? {
      var line := LineOf(s.open.value);
      assert Text(s)[|Text(s)| - 1] == line[|line| - 1];
    } else if s.closed != [] {
      ClosedEnds(s.closed);
    }
  }

  lemma CloseOpenLine<R>(s: Shape<R>)
    requires ValidShape(s)
    ensures AllShaped(s.closed + OpenLine(s))
    ensures Closed(s.closed + OpenLine(s)) == if s.open.Some? then Text(s) + "\n" else Text(s)
  {
    ClosedConcat(s.closed, OpenLine(s));
    if s.open.Some? {
      assert Closed(OpenLine(s)) == LineOf(s.open.value) + "\n" + Closed<R>([]);
    }
  }

  /** Appending whole lines to a file, torn or not, appends them to its shape. */
  lemma AppendRefines<R>(s: Shape<R>, added: seq<Entry<R>>)
    requires ValidShape(s) && AllShaped(added) && AllWhole(added)
    ensures ValidShape(AppendShape(s, added))
    ensures Text(AppendShape(s, added)) == AppendText(Text(s), Texts(added))
  {
    if added != [] {
      ClosedWhole(added);
      TextEnds(s);
      CloseOpenLine(s);
      ClosedConcat(s.closed + OpenLine(s), added);
    }
  }

  lemma {:induction false} CutClosedRefines<R>(es: seq<Entry<R>>, at: nat)
    requires AllShaped(es) && at <= |Closed(es)|
    ensures ValidShape(CutClosed(es, at))
    ensures Text(CutClosed(es, at)) == Closed(es)[..at]
  {
    if es != [] && at > 0 {
      var line := LineOf(es[0]);
      if at > es[0].kept {
        var at' := at - es[0].kept - 1;
        CutClosedRefines(es[1..], at');
        TextStep(es[0], CutClosed(es[1..], at'));
        assert Closed(es)[..at] == line + "\n" + Closed(es[1..])[..at'];
      } else {
        assert Closed(es)[..at] == line[..at];
      }
    }
  }

  lemma TextStep<R>(e: Entry<R>, rest: Shape<R>)
    requires Shaped(e) && ValidShape(rest)
    ensures ValidShape(Shape([e] + rest.closed, rest.open))
    ensures Text(Shape([e] + rest.closed, rest.open)) == LineOf(e) + "\n" + Text(rest)
  {
    assert ([e] + rest.closed)[1..] == rest.closed;
  }

  /** Cutting the file at any character cuts its shape there. */
  lemma CutRefines<R>(s: Shape<R>, at: nat)
    requires ValidShape(s) && at <= |Text(s)|
    ensures ValidShape(CutShape(s, at))
    ensures Text(CutShape(s, at)) == Text(s)[..at]
  {
    if at <= |Closed(s.closed)| {
      CutClosedRefines(s.closed, at);
    }
  }

  // ------------------------------------------------------- what survives a cut

  /** The records of the lines that were written to their last character, in order. */
  function Whole<R>(es: seq<Entry<R>>): seq<R> {
    if es == [] then []
    else (if es[0].kept == |es[0].full| then [es[0].record] else []) + Whole(es[1..])
  }

  function Survivors<R>(s: Shape<R>): seq<R> { Whole(s.closed) + Whole(OpenLine(s)) }

  function RecordsOf<R>(es: seq<Entry<R>>): seq<R> { seq(|es|, i requires 0 <= i < |es| => es[i].record) }

  lemma {:induction false} WholeIsAll<R>(es: seq<Entry<R>>)
    requires AllWhole(es)
    ensures Whole(es) == RecordsOf(es)
  {
    if es != [] {
      WholeIsAll(es[1..]);
      assert RecordsOf(es) == [es[0].record] + RecordsOf(es[1..]);
    }
  }

  /** How many of the lines, one after the other, are complete in the first `at` characters. */
  function Complete<R>(es: seq<Entry<R>>, at: nat): (n: nat)
    ensures n <= |es|
  {
    if es == [] || at < |es[0].full| then 0
    else if at == |es[0].full| then 1
    else 1 + Complete(es[1..], at - |es[0].full| - 1)
  }

  lemma {:induction false} CutKeepsComplete<R>(es: seq<Entry<R>>, at: nat)
    requires AllShaped(es) && AllWhole(es)
    ensures Survivors(CutClosed(es, at)) == RecordsOf(es)[..Complete(es, at)]
  {
    if es != [] {
      if at > es[0].kept {
        var at' := at - es[0].kept - 1;
        CutKeepsComplete(es[1..], at');
        SurvivorsBehindFirst(es, at);
        CompleteBehindFirst(es, at);
        RecordsOfCons(es);
        PrefixCons(es[0].record, RecordsOf(es[1..]), Complete(es[1..], at'));
      } else {
        CutFirst(es, at);
      }
    }
  }

  /** A cut behind the first line keeps its record and cuts the others. */
  lemma SurvivorsBehindFirst<R>(es: seq<Entry<R>>, at: nat)
    requires es != [] && es[0].kept == |es[0].full| < at
    ensures Survivors(CutClosed(es, at)) == [es[0].record] + Survivors(CutClosed(es[1..], at - es[0].kept - 1))
  {
    var rest := CutClosed(es[1..], at - es[0].kept - 1);
    WholeStep(es[0], rest);
    assert CutClosed(es, at) == Shape([es[0]] + rest.closed, rest.open);
  }

  lemma RecordsOfCons<R>(es: seq<Entry<R>>)
    requires es != []
    ensures RecordsOf(es) == [es[0].record] + RecordsOf(es[1..])
  {
  }

  lemma CompleteBehindFirst<R>(es: seq<Entry<R>>, at: nat)
    requires es != [] && es[0].kept == |es[0].full| < at
    ensures Complete(es, at) == 1 + Complete(es[1..], at - es[0].kept - 1)
  {
  }

  /** A cut inside the first line, or right behind it. */
  lemma CutFirst<R>(es: seq<Entry<R>>, at: nat)
    requires es != [] && AllShaped(es) && AllWhole(es) && at <= es[0].kept
    ensures Survivors(CutClosed(es, at)) == if at == es[0].kept then [es[0].record] else []
  {
    var e := es[0];
    if at > 0 {
      assert CutClosed(es, at) == Shape([], Some(e.(kept := at)));
      assert [e.(kept := at)][1..] == [];
    }
  }

  lemma PrefixCons<R>(x: R, s: seq<R>, n: nat)
    requires n <= |s|
    ensures ([x] + s)[..n + 1] == [x] + s[..n]
  {
  }

  lemma WholeStep<R>(e: Entry<R>, rest: Shape<R>)
    requires e.kept == |e.full|
    ensures Survivors(Shape([e] + rest.closed, rest.open)) == [e.record] + Survivors(rest)
  {
    assert ([e] + rest.closed)[1..] == rest.closed;
    assert Whole([e] + rest.closed) == [e.record] + Whole(rest.closed);
  }
}
