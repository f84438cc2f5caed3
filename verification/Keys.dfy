/** The textual keys of the SQLite tables and why they identify what they stand for. */
module Keys {
  import opened Common
  import opened Json

  const NUL: char := 0 as char

  ghost predicate NulFree(s: string) { forall i :: 0 <= i < |s| ==> s[i] != NUL }

  // ------------------------------------------------------------------ decimals

  function Digit(n: nat): char
    requires n < 10
  {
    '0' + n as char
  }

  function PrintNat(n: nat): string {
    if n < 10 then [Digit(n)] else PrintNat(n / 10) + [Digit(n % 10)]
  }

  function ParseNat(s: string): int {
    if s == "" then 0 else ParseNat(s[..|s| - 1]) * 10 + (s[|s| - 1] as int - '0' as int)
  }

  function PrintInt(n: int): string { if n < 0 then "-" + PrintNat(-n) else PrintNat(n) }

  lemma {:induction false} ParsePrint(n: nat)
    ensures ParseNat(PrintNat(n)) == n
    ensures PrintNat(n) != "" && forall i :: 0 <= i < |PrintNat(n)| ==> '0' <= PrintNat(n)[i] <= '9'
  {
    if n < 10 {
      assert PrintNat(n)[..0] == "";
    } else {
      ParsePrint(n / 10);
      assert PrintNat(n)[..|PrintNat(n)| - 1] == PrintNat(n / 10);
    }
  }

  function ParseInt(s: string): int { if s != "" && s[0] == '-' then -ParseNat(s[1..]) else ParseNat(s) }

  lemma IntReadsBack(n: int)
    ensures ParseInt(PrintInt(n)) == n && WellFormed(Num(PrintInt(n)))
  {
    var m := if n < 0 then -n else n;
    ParsePrint(m);
    if n < 0 {
      assert PrintInt(n)[0] == '-' && PrintInt(n)[1..] == PrintNat(m);
    }
  }

  lemma PrintIntInjective(a: int, b: int)
    requires PrintInt(a) == PrintInt(b)
    ensures a == b
  {
    IntReadsBack(a);
    IntReadsBack(b);
  }

  function PrintLine(n: Option<int>): string {
    match n
    case None => ""
    case Some(v) => PrintInt(v)
  }

  lemma PrintLineNulFree(n: Option<int>)
    ensures NulFree(PrintLine(n)) && (PrintLine(n) == "" <==> n.None?)
  {
    if n.Some? {
      ParsePrint(if n.value < 0 then -n.value else n.value);
    }
  }

  lemma PrintLineInjective(a: Option<int>, b: Option<int>)
    ensures NulFree(PrintLine(a)) && NulFree(PrintLine(b))
    ensures PrintLine(a) == PrintLine(b) ==> a == b
  {
    PrintLineNulFree(a);
    PrintLineNulFree(b);
    if a.Some? && b.Some? && PrintLine(a) == PrintLine(b) {
      PrintIntInjective(a.value, b.value);
    }
  }

  // --------------------------------------------------------- NUL-separated keys

  function NulPair(a: string, b: string): string { a + [NUL] + b }

  lemma PairEnds(a: string, b: string)
    ensures NulFree(b) ==> (NulPair(a, b)[|a| + |b|] == NUL <==> b == "")
    ensures NulFree(a) ==> (NulPair(a, b)[0] == NUL <==> a == "")
  {
  }

  /** A pair can be taken apart at its last NUL when the second text has none. */
  lemma {:induction false} LastPart(a: string, b: string, x: string, y: string)
    requires NulFree(b) && NulFree(y) && NulPair(a, b) == NulPair(x, y)
    ensures a == x && b == y
  {
    var s := NulPair(a, b);
    var n := |s| - 1;
    PairEnds(a, b);
    PairEnds(x, y);
    assert b == "" <==> y == "";
    if b == "" {
      assert a == s[..n] == x;
    } else {
      var b', y' := b[..|b| - 1], y[..|y| - 1];
      assert NulPair(a, b') == s[..n] == NulPair(x, y');
      LastPart(a, b', x, y');
      assert b == b' + [s[n]] && y == y' + [s[n]];
    }
  }

  /** And at its first NUL when the first text has none. */
  lemma {:induction false} FirstPart(a: string, b: string, x: string, y: string)
    requires NulFree(a) && NulFree(x) && NulPair(a, b) == NulPair(x, y)
    ensures a == x && b == y
  {
    var s := NulPair(a, b);
    PairEnds(a, b);
    PairEnds(x, y);
    assert a == "" <==> x == "";
    if a == "" {
      assert b == s[1..] == y;
    } else {
      assert NulPair(a[1..], b) == s[1..] == NulPair(x[1..], y);
      FirstPart(a[1..], b, x[1..], y);
      assert a == [s[0]] + a[1..] && x == [s[0]] + x[1..];
    }
  }

  lemma DumpsNulFree(v: Json)
    requires WellFormed(v)
    ensures NulFree(Dumps(v))
  {
    DumpsPrintable(v);
  }

  /** para_key of link_store._para_key_from_doc. */
  function ParaKey(docId: string, paraJson: string): string { NulPair(docId, paraJson) }

  /** Whatever the document id holds, NULs included, the key determines it and the paragraph id. */
  lemma ParaKeyInjective(docId: string, para: Json, docId': string, para': Json)
    requires WellFormed(para) && WellFormed(para') && ParaKey(docId, Dumps(para)) == ParaKey(docId', Dumps(para'))
    ensures docId == docId' && para == para'
  {
    DumpsNulFree(para);
    DumpsNulFree(para');
    LastPart(docId, Dumps(para), docId', Dumps(para'));
    DumpsInjective(para, para');
  }

  /** sym_key of link_store._sym_key_from_code. */
  function SymKey(path: string, name: string, start: Option<int>, end: Option<int>, kind: string): string {
    NulPair(NulPair(NulPair(NulPair(path, name), PrintLine(start)), PrintLine(end)), kind)
  }

  /** Two keys coincide exactly when lines and kind agree and path and name do up to where the NUL
      between them is placed. */
  lemma SymKeyExactly(
    path: string, name: string, start: Option<int>, end: Option<int>, kind: string,
    path': string, name': string, start': Option<int>, end': Option<int>, kind': string)
    requires NulFree(kind) && NulFree(kind')
    ensures SymKey(path, name, start, end, kind) == SymKey(path', name', start', end', kind') <==>
      NulPair(path, name) == NulPair(path', name') && start == start' && end == end' && kind == kind'
  {
    PrintLineInjective(start, start');
    PrintLineInjective(end, end');
    if SymKey(path, name, start, end, kind) == SymKey(path', name', start', end', kind') {
      var p, p' := NulPair(path, name), NulPair(path', name');
      var q, q' := NulPair(p, PrintLine(start)), NulPair(p', PrintLine(start'));
      LastPart(NulPair(q, PrintLine(end)), kind, NulPair(q', PrintLine(end')), kind');
      LastPart(q, PrintLine(end), q', PrintLine(end'));
      LastPart(p, PrintLine(start), p', PrintLine(start'));
    }
  }

  /** So with NUL-free paths, which every file system guarantees, the key determines all its parts. */
  lemma SymKeyInjective(
    path: string, name: string, start: Option<int>, end: Option<int>, kind: string,
    path': string, name': string, start': Option<int>, end': Option<int>, kind': string)
    requires NulFree(path) && NulFree(path') && NulFree(kind) && NulFree(kind')
    requires SymKey(path, name, start, end, kind) == SymKey(path', name', start', end', kind')
    ensures path == path' && name == name' && start == start' && end == end' && kind == kind'
  {
    SymKeyExactly(path, name, start, end, kind, path', name', start', end', kind');
    FirstPart(path, name, path', name');
  }

  /** Without that, a NUL can move from a path into a name. */
  lemma SymKeyCollidesThroughNul(a: string, b: string, c: string, start: Option<int>, end: Option<int>, kind: string)
    ensures SymKey(NulPair(a, b), c, start, end, kind) == SymKey(a, NulPair(b, c), start, end, kind)
  {
    assert NulPair(NulPair(a, b), c) == NulPair(a, NulPair(b, c));
  }
}
