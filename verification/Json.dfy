/** JSON text: the printer behind json.dumps(..., ensure_ascii=False), the reader
    behind json.loads, and the facts the log file, the link store and the response
    envelope rest on.  Numbers are kept as their printed tokens. */
module Json {
  import opened Common

  datatype Json =
    | Null
    | Bool(flag: bool)
    | Num(token: string)
    | Str(text: string)
    | Arr(items: seq<Json>)
    | Obj(members: seq<Member>)
  datatype Member = Member(name: string, value: Json)

  datatype Parsed<+T> = Fail | Done(value: T, rest: string)

  predicate NumChar(c: char) { '0' <= c <= '9' || c in "+-.eE" }

  predicate WellFormed(v: Json) {
    match v
    case Num(t) => t != "" && forall i :: 0 <= i < |t| ==> NumChar(t[i])
    case Arr(items) => forall x <- items :: WellFormed(x)
    case Obj(members) => forall m <- members :: WellFormed(m.value)
    case _ => true
  }

  // ---------------------------------------------------------------- printing

  function HexDigit(n: nat): char
    requires n < 16
  {
    if n < 10 then ('0' as int + n) as char else ('a' as int + n - 10) as char
  }

  /** One character of a string literal (section 7 of RFC 8259): quote, backslash and
      controls are escaped, everything else is written as it is. */
  function EscapeChar(c: char): (r: string)
    ensures |r| >= 1
  {
    if c == '"' then "\\\""
    else if c == '\\' then "\\\\"
    else if c == '\n' then "\\n"
    else if c == '\r' then "\\r"
    else if c == '\t' then "\\t"
    else if c as int == 8 then "\\b"
    else if c as int == 12 then "\\f"
    else if c < ' ' then "\\u00" + [HexDigit(c as int / 16), HexDigit(c as int % 16)]
    else [c]
  }

  function Escape(s: string): string {
    if s == "" then "" else EscapeChar(s[0]) + Escape(s[1..])
  }

  function Quote(s: string): string { "\"" + Escape(s) + "\"" }

  function Dumps(v: Json): string
    decreases v, 0
  {
    match v
    case Null => "null"
    case Bool(b) => if b then "true" else "false"
    case Num(t) => t
    case Str(s) => Quote(s)
    case Arr(items) => if items == [] then "[]" else "[" + DumpItems(items) + "]"
    case Obj(members) => if members == [] then "{}" else "{" + DumpMembers(members) + "}"
  }

  function DumpItems(items: seq<Json>): string
    requires items != []
    decreases items, 1
  {
    if |items| == 1 then Dumps(items[0])
    else Dumps(items[0]) + ", " + DumpItems(items[1..])
  }

  function DumpMember(m: Member): string
    decreases m, 1
  {
    Quote(m.name) + ": " + Dumps(m.value)
  }

  function DumpMembers(members: seq<Member>): string
    requires members != []
    decreases members, 2
  {
    if |members| == 1 then DumpMember(members[0])
    else DumpMember(members[0]) + ", " + DumpMembers(members[1..])
  }

  // ----------------------------------------------------------------- reading

  predicate Blank(c: char) { c == ' ' || c == '\t' || c == '\n' || c == '\r' }

  function SkipBlank(s: string): (r: string)
    ensures |r| <= |s|
    ensures r == "" || !Blank(r[0])
  {
    if s != "" && Blank(s[0]) then SkipBlank(s[1..]) else s
  }

  function HexValue(c: char): Option<nat> {
    if '0' <= c <= '9' then Some(c as int - '0' as int)
    else if 'a' <= c <= 'f' then Some(c as int - 'a' as int + 10)
    else if 'A' <= c <= 'F' then Some(c as int - 'A' as int + 10)
    else None
  }

  /** The character named by the escape that follows a backslash, and what comes after it. */
  function Unescape(s: string): (r: Parsed<char>)
    ensures r.Done? ==> |r.rest| < |s|
  {
    if s == "" then Fail
    else if s[0] == '"' || s[0] == '\\' || s[0] == '/' then Done(s[0], s[1..])
    else if s[0] == 'n' then Done('\n', s[1..])
    else if s[0] == 'r' then Done('\r', s[1..])
    else if s[0] == 't' then Done('\t', s[1..])
    else if s[0] == 'b' then Done(8 as char, s[1..])
    else if s[0] == 'f' then Done(12 as char, s[1..])
    else if s[0] == 'u' && |s| >= 5 then
      match (HexValue(s[1]), HexValue(s[2]), HexValue(s[3]), HexValue(s[4]))
      case (Some(a), Some(b), Some(c), Some(d)) =>
        var n := ((a * 16 + b) * 16 + c) * 16 + d;
        if n < 0xD800 then Done(n as char, s[5..]) else Fail
      case _ => Fail
    else Fail
  }

  /** One more character in front of what a string literal holds. */
  function Before(c: char, r: Parsed<string>): Parsed<string> {
    match r
    case Fail => Fail
    case Done(t, end) => Done([c] + t, end)
  }

  /** The rest of a string literal whose opening quote has been read. */
  function StringTail(s: string): (r: Parsed<string>)
    ensures r.Done? ==> |r.rest| < |s|
    decreases |s|
  {
    if s == "" then Fail
    else if s[0] == '"' then Done("", s[1..])
    else if s[0] == '\\' then
      match Unescape(s[1..])
      case Fail => Fail
      case Done(c, rest) => Before(c, StringTail(rest))
    else if s[0] < ' ' then Fail
    else Before(s[0], StringTail(s[1..]))
  }

  function NumberRun(s: string): (r: nat)
    ensures r <= |s|
  {
    if s != "" && NumChar(s[0]) then 1 + NumberRun(s[1..]) else 0
  }

  /** A literal, a number or a string that starts at the first character. */
  function Scalar(t: string): (r: Parsed<Json>)
    ensures r.Done? ==> |r.rest| < |t|
  {
    if t == "" then Fail
    else if t[0] == '"' then
      match StringTail(t[1..])
      case Fail => Fail
      case Done(x, rest) => Done(Str(x), rest)
    else if "null" <= t then Done(Null, t[4..])
    else if "true" <= t then Done(Bool(true), t[4..])
    else if "false" <= t then Done(Bool(false), t[5..])
    else
      var n := NumberRun(t);
      if n > 0 then Done(Num(t[..n]), t[n..]) else Fail
  }

  function Value(s: string): (r: Parsed<Json>)
    ensures r.Done? ==> |r.rest| < |s|
    decreases |s|, 1
  {
    var t := SkipBlank(s);
    if t == "" then Fail
    else if t[0] == '[' then ArrayTail(t[1..])
    else if t[0] == '{' then ObjectTail(t[1..])
    else Scalar(t)
  }

  function ArrayTail(s: string): (r: Parsed<Json>)
    ensures r.Done? ==> |r.rest| < |s|
    decreases |s|, 3
  {
    var u := SkipBlank(s);
    if u != "" && u[0] == ']' then Done(Arr([]), u[1..])
    else
      match Items(s)
      case Fail => Fail
      case Done(xs, rest) => Done(Arr(xs), rest)
  }

  function ObjectTail(s: string): (r: Parsed<Json>)
    ensures r.Done? ==> |r.rest| < |s|
    decreases |s|, 3
  {
    var u := SkipBlank(s);
    if u != "" && u[0] == '}' then Done(Obj([]), u[1..])
    else
      match Members(s)
      case Fail => Fail
      case Done(ms, rest) => Done(Obj(ms), rest)
  }

  /** Array elements up to and including the closing bracket. */
  function Items(s: string): (r: Parsed<seq<Json>>)
    ensures r.Done? ==> |r.rest| < |s|
    decreases |s|, 2
  {
    match Value(s)
    case Fail => Fail
    case Done(v, rest) => MoreItems(v, SkipBlank(rest))
  }

  function MoreItems(v: Json, t: string): (r: Parsed<seq<Json>>)
    ensures r.Done? ==> |r.rest| < |t|
    decreases |t|, 2
  {
    if t == "" then Fail
    else if t[0] == ']' then Done([v], t[1..])
    else if t[0] != ',' then Fail
    else
      match Items(t[1..])
      case Fail => Fail
      case Done(vs, end) => Done([v] + vs, end)
  }

  /** Object members up to and including the closing brace. */
  function Members(s: string): (r: Parsed<seq<Member>>)
    ensures r.Done? ==> |r.rest| < |s|
    decreases |s|, 2
  {
    match MemberAt(SkipBlank(s))
    case Fail => Fail
    case Done(m, rest) => MoreMembers(m, SkipBlank(rest))
  }

  function MemberAt(q: string): (r: Parsed<Member>)
    ensures r.Done? ==> |r.rest| < |q|
    decreases |q|, 1
  {
    if q == "" || q[0] != '"' then Fail
    else
      match StringTail(q[1..])
      case Fail => Fail
      case Done(name, after) =>
        var c := SkipBlank(after);
        if c == "" || c[0] != ':' then Fail
        else
          match Value(c[1..])
          case Fail => Fail
          case Done(v, rest) => Done(Member(name, v), rest)
  }

  function MoreMembers(m: Member, t: string): (r: Parsed<seq<Member>>)
    ensures r.Done? ==> |r.rest| < |t|
    decreases |t|, 2
  {
    if t == "" then Fail
    else if t[0] == '}' then Done([m], t[1..])
    else if t[0] != ',' then Fail
    else
      match Members(t[1..])
      case Fail => Fail
      case Done(ms, end) => Done([m] + ms, end)
  }

  function Loads(s: string): Option<Json> {
    match Value(s)
    case Fail => None
    case Done(v, rest) => if SkipBlank(rest) == "" then Some(v) else None
  }

  /** dict.get on a decoded object: the last member with the name, null if there is none. */
  function Get(v: Json, name: string): Json {
    if v.Obj? then GetFrom(v.members, name) else Null
  }

  function GetFrom(ms: seq<Member>, name: string): Json {
    if ms == [] then Null
    else if ms[|ms| - 1].name == name then ms[|ms| - 1].value
    else GetFrom(ms[..|ms| - 1], name)
  }

  lemma GetSnoc(ms: seq<Member>, m: Member, name: string)
    ensures GetFrom(ms + [m], name) == if m.name == name then m.value else GetFrom(ms, name)
  {
    assert (ms + [m])[..|ms|] == ms;
  }

  // -------------------------------------------------------------- round trip

  lemma HexReadsBack(n: nat)
    requires n < 16
    ensures HexValue(HexDigit(n)) == Some(n)
  {
  }

  lemma EscapedControlReadsBack(c: char, tail: string)
    requires c < ' '
    ensures Unescape("u00" + [HexDigit(c as int / 16), HexDigit(c as int % 16)] + tail) == Done(c, tail)
  {
    var e := "u00" + [HexDigit(c as int / 16), HexDigit(c as int % 16)] + tail;
    HexReadsBack(0);
    HexReadsBack(c as int / 16);
    HexReadsBack(c as int % 16);
    assert e[0] == 'u' && e[1] == e[2] == HexDigit(0) && e[3] == HexDigit(c as int / 16)
      && e[4] == HexDigit(c as int % 16);
    assert e[5..] == tail;
  }

  lemma UnescapedReadsBack(c: char, tail: string)
    requires EscapeChar(c)[0] == '\\'
    ensures Unescape(EscapeChar(c)[1..] + tail) == Done(c, tail)
  {
    var e := EscapeChar(c)[1..] + tail;
    if e[0] != 'u' {
      assert e[1..] == tail;
    } else {
      EscapedControlReadsBack(c, tail);
      assert e == "u00" + [HexDigit(c as int / 16), HexDigit(c as int % 16)] + tail;
    }
  }

  lemma EscapedCharReadsBack(c: char, tail: string)
    ensures StringTail(EscapeChar(c) + tail) == Before(c, StringTail(tail))
  {
    var e := EscapeChar(c) + tail;
    if e[0] != '\\' {
      assert e[1..] == tail;
    } else {
      UnescapedReadsBack(c, tail);
      assert e[1..] == EscapeChar(c)[1..] + tail;
    }
  }

  lemma Reassociate(a: string, b: string, c: string, d: string)
    ensures a + b + c + d == a + (b + c + d)
  {
  }

  lemma {:induction false} QuotedReadsBack(s: string, rest: string)
    ensures StringTail(Escape(s) + "\"" + rest) == Done(s, rest)
  {
    if s == "" {
      assert Escape(s) + "\"" + rest == "\"" + rest;
    } else {
      QuotedReadsBack(s[1..], rest);
      EscapedCharReadsBack(s[0], Escape(s[1..]) + "\"" + rest);
      Reassociate(EscapeChar(s[0]), Escape(s[1..]), "\"", rest);
      assert s == [s[0]] + s[1..];
    }
  }

  lemma {:induction false} NumberReadsBack(t: string, rest: string)
    requires forall i :: 0 <= i < |t| ==> NumChar(t[i])
    requires rest == "" || !NumChar(rest[0])
    ensures NumberRun(t + rest) == |t|
  {
    if t == "" {
      assert t + rest == rest;
    } else {
      NumberReadsBack(t[1..], rest);
      assert (t + rest)[1..] == t[1..] + rest;
    }
  }

  lemma DumpsStart(v: Json)
    requires WellFormed(v)
    ensures Dumps(v) != "" && !Blank(Dumps(v)[0]) && Dumps(v)[0] !in "]}:,"
    ensures Dumps(v)[0] == '[' <==> v.Arr?
    ensures Dumps(v)[0] == '{' <==> v.Obj?
  {
  }

  lemma WordReadsBack(v: Json, rest: string)
    requires v.Null? || v.Bool?
    ensures Scalar(Dumps(v) + rest) == Done(v, rest)
  {
    var w := Dumps(v);
    var s := w + rest;
    assert s[0] == w[0] && w <= s && s[|w|..] == rest;
  }

  lemma TokenReadsBack(t: string, rest: string)
    requires WellFormed(Num(t)) && (rest == "" || !NumChar(rest[0]))
    ensures Scalar(t + rest) == Done(Num(t), rest)
  {
    var s := t + rest;
    NumberReadsBack(t, rest);
    assert s[0] == t[0] && NumChar(t[0]) && s[..|t|] == t && s[|t|..] == rest;
  }

  lemma StringReadsBack(x: string, rest: string)
    ensures Scalar(Quote(x) + rest) == Done(Str(x), rest)
  {
    var s := Quote(x) + rest;
    QuotedReadsBack(x, rest);
    assert s == "\"" + (Escape(x) + "\"" + rest);
    assert s[0] == '"' && s[1..] == Escape(x) + "\"" + rest;
  }

  lemma ScalarReadsBack(v: Json, rest: string)
    requires WellFormed(v) && !v.Arr? && !v.Obj?
    requires v.Num? ==> rest == "" || !NumChar(rest[0])
    ensures Scalar(Dumps(v) + rest) == Done(v, rest)
  {
    match v
    case Num(t) => TokenReadsBack(t, rest);
    case Str(x) => StringReadsBack(x, rest);
    case _ => WordReadsBack(v, rest);
  }

  lemma SkipBlankAt(s: string)
    requires s == "" || !Blank(s[0])
    ensures SkipBlank(s) == s
  {
  }

  lemma LeadingBlank(s: string)
    ensures SkipBlank(" " + s) == SkipBlank(s)
    ensures Value(" " + s) == Value(s) && Items(" " + s) == Items(s) && Members(" " + s) == Members(s)
  {
    assert (" " + s)[1..] == s;
  }

  lemma ValueAt(s: string)
    requires s != "" && !Blank(s[0])
    ensures Value(s) ==
      if s[0] == '[' then ArrayTail(s[1..]) else if s[0] == '{' then ObjectTail(s[1..]) else Scalar(s)
  {
  }

  lemma {:induction false} ValueReadsBack(v: Json, rest: string)
    requires WellFormed(v)
    requires v.Num? ==> rest == "" || !NumChar(rest[0])
    ensures Value(Dumps(v) + rest) == Done(v, rest)
    decreases v, 0
  {
    var s := Dumps(v) + rest;
    DumpsStart(v);
    ValueAt(s);
    if v.Arr? {
      var body := if v.items == [] then "]" else DumpItems(v.items) + "]";
      assert Dumps(v) == "[" + body;
      assert s[1..] == body + rest;
      ArrayReadsBack(v.items, rest);
    } else if v.Obj? {
      var body := if v.members == [] then "}" else DumpMembers(v.members) + "}";
      assert Dumps(v) == "{" + body;
      assert s[1..] == body + rest;
      ObjectReadsBack(v.members, rest);
    } else {
      ScalarReadsBack(v, rest);
    }
  }

  lemma {:induction false} ArrayReadsBack(items: seq<Json>, rest: string)
    requires forall x <- items :: WellFormed(x)
    ensures ArrayTail((if items == [] then "]" else DumpItems(items) + "]") + rest) == Done(Arr(items), rest)
    decreases items, 2
  {
    if items != [] {
      var tail := DumpItems(items) + "]" + rest;
      DumpsStart(items[0]);
      assert tail[0] == Dumps(items[0])[0];
      SkipBlankAt(tail);
      ItemsReadBack(items, rest);
    } else {
      SkipBlankAt("]" + rest);
    }
  }

  lemma {:induction false} ObjectReadsBack(members: seq<Member>, rest: string)
    requires forall m <- members :: WellFormed(m.value)
    ensures ObjectTail((if members == [] then "}" else DumpMembers(members) + "}") + rest) == Done(Obj(members), rest)
    decreases members, 4
  {
    if members != [] {
      var tail := DumpMembers(members) + "}" + rest;
      assert DumpMember(members[0])[0] == '"';
      assert tail[0] == DumpMembers(members)[0] == '"';
      SkipBlankAt(tail);
      MembersReadBack(members, rest);
    } else {
      SkipBlankAt("}" + rest);
    }
  }

  lemma Regroup(first: string, others: string, close: string, rest: string)
    ensures first + ", " + others + close + rest == first + (", " + (others + close + rest))
  {
  }

  lemma LastItem(v: Json, rest: string)
    ensures MoreItems(v, "]" + rest) == Done([v], rest)
  {
    var t := "]" + rest;
    assert t[0] == ']' && t[1..] == rest;
  }

  lemma NextItem(v: Json, more: string, vs: seq<Json>, rest: string)
    requires Items(more) == Done(vs, rest)
    ensures MoreItems(v, ", " + more) == Done([v] + vs, rest)
  {
    var t := ", " + more;
    assert t[0] == ',' && t[1..] == " " + more;
    LeadingBlank(more);
  }

  lemma {:induction false} ItemsStep(v: Json, t: string)
    requires WellFormed(v) && t != "" && t[0] in "],"
    ensures Items(Dumps(v) + t) == MoreItems(v, t)
    decreases v, 1
  {
    ValueReadsBack(v, t);
    SkipBlankAt(t);
  }

  lemma {:induction false} ItemsReadBack(items: seq<Json>, rest: string)
    requires items != [] && forall x <- items :: WellFormed(x)
    ensures Items(DumpItems(items) + "]" + rest) == Done(items, rest)
    decreases items, 1
  {
    var s, v := DumpItems(items) + "]" + rest, items[0];
    if |items| == 1 {
      var t := "]" + rest;
      assert s == Dumps(v) + t;
      ItemsStep(v, t);
      LastItem(v, rest);
      assert items == [v];
    } else {
      var more := DumpItems(items[1..]) + "]" + rest;
      Regroup(Dumps(v), DumpItems(items[1..]), "]", rest);
      ItemsStep(v, ", " + more);
      ItemsReadBack(items[1..], rest);
      NextItem(v, more, items[1..], rest);
      assert items == [v] + items[1..];
    }
  }

  lemma DumpMemberSplits(m: Member, rest: string)
    ensures DumpMember(m) + rest == "\"" + (Escape(m.name) + "\"" + (": " + (Dumps(m.value) + rest)))
  {
  }

  lemma AfterName(value: string)
    ensures SkipBlank(": " + value) == ": " + value && Value((": " + value)[1..]) == Value(value)
  {
    SkipBlankAt(": " + value);
    assert (": " + value)[1..] == " " + value;
    LeadingBlank(value);
  }

  lemma {:induction false} MemberReadsBack(m: Member, rest: string)
    requires WellFormed(m.value)
    requires rest == "" || !NumChar(rest[0])
    ensures MemberAt(DumpMember(m) + rest) == Done(m, rest)
    decreases m, 1
  {
    var value := Dumps(m.value) + rest;
    var after := Escape(m.name) + "\"" + (": " + value);
    DumpMemberSplits(m, rest);
    assert ("\"" + after)[1..] == after;
    QuotedReadsBack(m.name, ": " + value);
    AfterName(value);
    ValueReadsBack(m.value, rest);
  }

  lemma MemberStart(m: Member, t: string)
    ensures DumpMember(m) + t != "" && (DumpMember(m) + t)[0] == '"'
    ensures SkipBlank(DumpMember(m) + t) == DumpMember(m) + t
  {
  }

  lemma LastMember(m: Member, rest: string)
    ensures MoreMembers(m, "}" + rest) == Done([m], rest)
  {
    var t := "}" + rest;
    assert t[0] == '}' && t[1..] == rest;
  }

  lemma NextMember(m: Member, more: string, ms: seq<Member>, rest: string)
    requires Members(more) == Done(ms, rest)
    ensures MoreMembers(m, ", " + more) == Done([m] + ms, rest)
  {
    var t := ", " + more;
    assert t[0] == ',' && t[1..] == " " + more;
    LeadingBlank(more);
  }

  lemma {:induction false} MembersStep(m: Member, t: string)
    requires WellFormed(m.value) && t != "" && t[0] in "},"
    ensures Members(DumpMember(m) + t) == MoreMembers(m, t)
    decreases m, 2
  {
    MemberStart(m, t);
    MemberReadsBack(m, t);
    SkipBlankAt(t);
  }

  lemma {:induction false} MembersReadBack(members: seq<Member>, rest: string)
    requires members != [] && forall m <- members :: WellFormed(m.value)
    ensures Members(DumpMembers(members) + "}" + rest) == Done(members, rest)
    decreases members, 3
  {
    if |members| == 1 {
      OneMemberReadsBack(members[0], rest);
      assert members == [members[0]];
    } else {
      MembersReadBack(members[1..], rest);
      MemberInFront(members[0], DumpMembers(members[1..]), members[1..], rest);
      assert members == [members[0]] + members[1..];
    }
  }

  lemma {:induction false} OneMemberReadsBack(m: Member, rest: string)
    requires WellFormed(m.value)
    ensures Members(DumpMember(m) + "}" + rest) == Done([m], rest)
    decreases m, 3
  {
    var t := "}" + rest;
    assert DumpMember(m) + "}" + rest == DumpMember(m) + t;
    MembersStep(m, t);
    LastMember(m, rest);
  }

  lemma {:induction false} MemberInFront(m: Member, others: string, ms: seq<Member>, rest: string)
    requires WellFormed(m.value) && Members(others + "}" + rest) == Done(ms, rest)
    ensures Members(DumpMember(m) + ", " + others + "}" + rest) == Done([m] + ms, rest)
    decreases m, 3
  {
    var more := others + "}" + rest;
    Regroup(DumpMember(m), others, "}", rest);
    MembersStep(m, ", " + more);
    NextMember(m, more, ms, rest);
  }

  /** json.loads undoes json.dumps. */
  lemma LoadsDumps(v: Json)
    requires WellFormed(v)
    ensures Loads(Dumps(v)) == Some(v)
  {
    ValueReadsBack(v, "");
    assert Dumps(v) + "" == Dumps(v);
  }

  lemma DumpsInjective(v: Json, w: Json)
    requires WellFormed(v) && WellFormed(w)
    requires Dumps(v) == Dumps(w)
    ensures v == w
  {
    LoadsDumps(v);
    LoadsDumps(w);
  }

  // ------------------------------------------- what a torn text can look like

  /** What the reader has accepted it keeps accepting when more text follows. */
  ghost predicate Extends<T>(shorter: Parsed<T>, q: string, longer: Parsed<T>) {
    shorter.Done? ==> longer == Done(shorter.value, shorter.rest + q)
  }

  lemma {:induction false} SkipBlankExtends(p: string, q: string)
    ensures SkipBlank(p) != "" ==> SkipBlank(p + q) == SkipBlank(p) + q
  {
    if p != "" && Blank(p[0]) {
      SkipBlankExtends(p[1..], q);
      assert (p + q)[1..] == p[1..] + q;
    }
  }

  lemma UnescapeExtends(p: string, q: string)
    ensures Extends(Unescape(p), q, Unescape(p + q))
  {
    if p != "" {
      assert (p + q)[0] == p[0] && (p + q)[1..] == p[1..] + q;
      if |p| >= 5 {
        assert (p + q)[5..] == p[5..] + q;
      }
    }
  }

  lemma {:induction false} StringTailExtends(p: string, q: string)
    ensures Extends(StringTail(p), q, StringTail(p + q))
    decreases |p|
  {
    if p != "" {
      assert (p + q)[0] == p[0] && (p + q)[1..] == p[1..] + q;
      if p[0] == '\\' {
        UnescapeExtends(p[1..], q);
        if Unescape(p[1..]).Done? {
          StringTailExtends(Unescape(p[1..]).rest, q);
        }
      } else if p[0] != '"' {
        StringTailExtends(p[1..], q);
      }
    }
  }

  lemma {:induction false} NumberRunExtends(p: string, q: string)
    requires NumberRun(p) < |p|
    ensures NumberRun(p + q) == NumberRun(p)
  {
    assert (p + q)[0] == p[0] && (p + q)[1..] == p[1..] + q;
    if NumChar(p[0]) {
      NumberRunExtends(p[1..], q);
    }
  }

  /** Only a number at the very end of a text may grow. */
  ghost predicate Settled(r: Parsed<Json>) { r.Done? ==> r.value.Num? ==> r.rest != "" }

  lemma SplitAt(p: string, q: string, n: nat)
    requires n <= |p|
    ensures (p + q)[..n] == p[..n] && (p + q)[n..] == p[n..] + q
  {
  }

  lemma NumberExtends(p: string, q: string)
    requires p != "" && p[0] != '"' && Scalar(p).Done? && Scalar(p).value.Num? && Scalar(p).rest != ""
    ensures Extends(Scalar(p), q, Scalar(p + q))
  {
    var n := NumberRun(p);
    assert NumChar(p[0]) && (p + q)[0] == p[0];
    NumberRunExtends(p, q);
    SplitAt(p, q, n);
  }

  lemma WordExtends(p: string, q: string)
    requires p != "" && p[0] != '"' && Scalar(p).Done? && !Scalar(p).value.Num?
    ensures Extends(Scalar(p), q, Scalar(p + q))
  {
    assert (p + q)[0] == p[0];
    SplitAt(p, q, if p[0] == 'f' then 5 else 4);
  }

  lemma ScalarExtends(p: string, q: string)
    requires Settled(Scalar(p))
    ensures Extends(Scalar(p), q, Scalar(p + q))
  {
    if Scalar(p).Done? {
      if p[0] == '"' {
        assert (p + q)[0] == p[0] && (p + q)[1..] == p[1..] + q;
        StringTailExtends(p[1..], q);
      } else if Scalar(p).value.Num? {
        NumberExtends(p, q);
      } else {
        WordExtends(p, q);
      }
    }
  }

  lemma {:induction false} ValueExtends(p: string, q: string)
    requires Settled(Value(p))
    ensures Extends(Value(p), q, Value(p + q))
    decreases |p|, 1
  {
    var t := SkipBlank(p);
    if t != "" {
      SkipBlankExtends(p, q);
      assert (t + q)[0] == t[0] && (t + q)[1..] == t[1..] + q;
      if t[0] == '[' {
        ArrayTailExtends(t[1..], q);
      } else if t[0] == '{' {
        ObjectTailExtends(t[1..], q);
      } else {
        ScalarExtends(t, q);
      }
    }
  }

  lemma {:induction false} ArrayTailExtends(p: string, q: string)
    ensures Extends(ArrayTail(p), q, ArrayTail(p + q))
    decreases |p|, 3
  {
    SkipBlankExtends(p, q);
    var u := SkipBlank(p);
    if u != "" {
      assert (u + q)[0] == u[0] && (u + q)[1..] == u[1..] + q;
      ItemsExtends(p, q);
    } else {
      assert Value(p).Fail? && Items(p).Fail?;
    }
  }

  lemma {:induction false} ObjectTailExtends(p: string, q: string)
    ensures Extends(ObjectTail(p), q, ObjectTail(p + q))
    decreases |p|, 3
  {
    SkipBlankExtends(p, q);
    var u := SkipBlank(p);
    if u != "" {
      assert (u + q)[0] == u[0] && (u + q)[1..] == u[1..] + q;
      MembersExtends(p, q);
    }
  }

  lemma {:induction false} ItemsExtends(p: string, q: string)
    ensures Extends(Items(p), q, Items(p + q))
    decreases |p|, 2
  {
    if Items(p).Done? {
      ValueExtends(p, q);
      var Done(v, rest) := Value(p);
      SkipBlankExtends(rest, q);
      MoreItemsExtends(v, SkipBlank(rest), q);
    }
  }

  lemma {:induction false} MoreItemsExtends(v: Json, p: string, q: string)
    ensures Extends(MoreItems(v, p), q, MoreItems(v, p + q))
    decreases |p|, 2
  {
    if p != "" {
      assert (p + q)[0] == p[0] && (p + q)[1..] == p[1..] + q;
      ItemsExtends(p[1..], q);
    }
  }

  lemma {:induction false} MembersExtends(p: string, q: string)
    ensures Extends(Members(p), q, Members(p + q))
    decreases |p|, 2
  {
    if Members(p).Done? {
      SkipBlankExtends(p, q);
      MemberAtExtends(SkipBlank(p), q);
      var Done(m, rest) := MemberAt(SkipBlank(p));
      SkipBlankExtends(rest, q);
      MoreMembersExtends(m, SkipBlank(rest), q);
    }
  }

  lemma {:induction false} MemberAtExtends(p: string, q: string)
    requires MemberAt(p).Done? ==> MemberAt(p).rest != ""
    ensures Extends(MemberAt(p), q, MemberAt(p + q))
    decreases |p|, 1
  {
    if MemberAt(p).Done? {
      assert (p + q)[0] == p[0] && (p + q)[1..] == p[1..] + q;
      StringTailExtends(p[1..], q);
      var after := StringTail(p[1..]).rest;
      SkipBlankExtends(after, q);
      var c := SkipBlank(after);
      assert (c + q)[0] == c[0] && (c + q)[1..] == c[1..] + q;
      ValueExtends(c[1..], q);
    }
  }

  lemma {:induction false} MoreMembersExtends(m: Member, p: string, q: string)
    ensures Extends(MoreMembers(m, p), q, MoreMembers(m, p + q))
    decreases |p|, 2
  {
    if p != "" {
      assert (p + q)[0] == p[0] && (p + q)[1..] == p[1..] + q;
      MembersExtends(p[1..], q);
    }
  }

  /** An object cut short anywhere is not JSON: the reader accepts no proper prefix. */
  lemma TornObjectIsUndecodable(v: Json, k: nat)
    requires WellFormed(v) && v.Obj?
    requires k < |Dumps(v)|
    ensures Loads(Dumps(v)[..k]) == None
  {
    var p, q := Dumps(v)[..k], Dumps(v)[k..];
    assert p + q == Dumps(v) == Dumps(v) + "";
    if k > 0 && Value(p).Done? {
      DumpsStart(v);
      assert p[0] == '{' && SkipBlank(p) == p;
      assert Value(p).value.Obj?;
      ValueExtends(p, q);
      ValueReadsBack(v, "");
      assert false;
    }
  }

  ghost predicate Printable(s: string) { forall i :: 0 <= i < |s| ==> s[i] >= ' ' }

  lemma {:induction false} EscapePrintable(s: string)
    ensures Printable(Escape(s))
  {
    if s != "" {
      EscapePrintable(s[1..]);
      assert Printable(EscapeChar(s[0]));
    }
  }

  lemma PrintableBetween(open: string, s: string, close: string)
    requires Printable(open) && Printable(s) && Printable(close)
    ensures Printable(open + s + close)
  {
  }

  /** Printed JSON is one line: no control character, so no line break and no NUL. */
  lemma {:induction false} DumpsPrintable(v: Json)
    requires WellFormed(v)
    ensures Printable(Dumps(v))
    decreases v, 0
  {
    match v
    case Str(s) => QuotePrintable(s);
    case Arr(items) =>
      if items != [] {
        DumpItemsPrintable(items);
        PrintableBetween("[", DumpItems(items), "]");
      }
    case Obj(members) =>
      if members != [] {
        DumpMembersPrintable(members);
        PrintableBetween("{", DumpMembers(members), "}");
      }
    case _ =>
  }

  lemma QuotePrintable(s: string)
    ensures Printable(Quote(s))
  {
    EscapePrintable(s);
    PrintableBetween("\"", Escape(s), "\"");
  }

  lemma {:induction false} DumpItemsPrintable(items: seq<Json>)
    requires items != [] && forall x <- items :: WellFormed(x)
    ensures Printable(DumpItems(items))
    decreases items, 1
  {
    DumpsPrintable(items[0]);
    if |items| > 1 {
      DumpItemsPrintable(items[1..]);
      PrintableBetween(Dumps(items[0]), ", ", DumpItems(items[1..]));
    }
  }

  lemma {:induction false} DumpMembersPrintable(members: seq<Member>)
    requires members != [] && forall m <- members :: WellFormed(m.value)
    ensures Printable(DumpMembers(members))
    decreases members, 2
  {
    var m := members[0];
    QuotePrintable(m.name);
    DumpsPrintable(m.value);
    PrintableBetween(Quote(m.name), ": ", Dumps(m.value));
    if |members| > 1 {
      DumpMembersPrintable(members[1..]);
      PrintableBetween(DumpMember(m), ", ", DumpMembers(members[1..]));
    }
  }
}
