/** result_envelope_json and _truncated_envelope_json (mcp_contract.py). */
module Envelope {
  import opened Common
  import opened Json
  import Keys

  const HINT := "Narrow the query (top_k/limit, include_raw_fields=false, content_mode=summary) and retry."

  /** The members in front of the payload (contract, tool, message, ok) and the bounded error. */
  datatype Head = Head(members: seq<Member>, error: Json)

  ghost predicate WellFormedMembers(ms: seq<Member>) { forall i :: 0 <= i < |ms| ==> WellFormed(ms[i].value) }

  ghost predicate WellFormedHead(h: Head) { WellFormedMembers(h.members) && WellFormed(h.error) }

  function Tail(error: Json, truncation: Json): seq<Member> {
    [Member("error", error), Member("truncation", truncation)]
  }

  function EnvelopeOf(h: Head, data: Json, error: Json, truncation: Json): Json {
    Obj(h.members + [Member("data", data)] + Tail(error, truncation))
  }

  function Truncation(reason: string, cap: nat): Json {
    Obj([Member("truncated", Bool(true)), Member("reason", Str(reason)),
         Member("cap_chars", Num(Keys.PrintNat(cap))), Member("hint", Str(HINT))])
  }

  const PREVIEW_HEAD := [Member("truncated", Bool(true))]
  const PREVIEW_TAIL := [Member("note", Str(HINT))]

  function PreviewOf(preview: string): Json { Obj(PREVIEW_HEAD + [Member("preview", Str(preview))] + PREVIEW_TAIL) }

  /** The truncated envelope with a given preview. */
  function Template(h: Head, cap: nat, preview: string): Json {
    EnvelopeOf(h, PreviewOf(preview), h.error, Truncation("content_cap_exceeded", cap))
  }

  // ------------------------------------------------------------------- lengths

  function Sum(ns: seq<nat>): nat { if ns == [] then 0 else ns[0] + Sum(ns[1..]) }

  lemma {:induction false} SumConcat(a: seq<nat>, b: seq<nat>)
    ensures Sum(a + b) == Sum(a) + Sum(b)
  {
    if a == [] {
      assert a + b == b;
    } else {
      SumConcat(a[1..], b);
      assert (a + b)[0] == a[0] && (a + b)[1..] == a[1..] + b;
    }
  }

  /** The lengths of printed members with a separator behind each. */
  function Lengths(ms: seq<Member>): seq<nat> { seq(|ms|, i requires 0 <= i < |ms| => |DumpMember(ms[i])| + 2) }

  function TotalLength(ms: seq<Member>): nat { Sum(Lengths(ms)) }

  lemma LengthsConcat(a: seq<Member>, b: seq<Member>)
    ensures Lengths(a + b) == Lengths(a) + Lengths(b)
  {
  }

  lemma TotalConcat(a: seq<Member>, b: seq<Member>)
    ensures TotalLength(a + b) == TotalLength(a) + TotalLength(b)
  {
    LengthsConcat(a, b);
    SumConcat(Lengths(a), Lengths(b));
  }

  lemma TotalCons(ms: seq<Member>)
    requires ms != []
    ensures TotalLength(ms) == |DumpMember(ms[0])| + 2 + TotalLength(ms[1..])
  {
    assert Lengths(ms)[1..] == Lengths(ms[1..]);
  }

  lemma {:induction false} TotalIsLength(ms: seq<Member>)
    requires ms != []
    ensures |DumpMembers(ms)| + 2 == TotalLength(ms)
  {
    TotalCons(ms);
    if |ms| > 1 {
      TotalIsLength(ms[1..]);
    }
  }

  lemma MembersLength(a: seq<Member>, m: Member, b: seq<Member>)
    ensures |DumpMembers(a + [m] + b)| == TotalLength(a) + |DumpMember(m)| + TotalLength(b)
  {
    TotalIsLength(a + [m] + b);
    TotalConcat(a + [m], b);
    TotalConcat(a, [m]);
    TotalCons([m]);
  }

  lemma ObjectLength(a: seq<Member>, m: Member, m': Member, b: seq<Member>)
    ensures |Dumps(Obj(a + [m] + b))| - |DumpMember(m)| == |Dumps(Obj(a + [m'] + b))| - |DumpMember(m')|
  {
    MembersLength(a, m, b);
    MembersLength(a, m', b);
  }

  lemma MemberLength(name: string, v: Json, w: Json)
    ensures |DumpMember(Member(name, v))| - |Dumps(v)| == |DumpMember(Member(name, w))| - |Dumps(w)|
  {
  }

  /** Replacing one value inside an object changes its printed length by what the value's does. */
  lemma ValueLength(a: seq<Member>, name: string, v: Json, w: Json, b: seq<Member>)
    ensures |Dumps(Obj(a + [Member(name, v)] + b))| - |Dumps(v)| == |Dumps(Obj(a + [Member(name, w)] + b))| - |Dumps(w)|
  {
    ObjectLength(a, Member(name, v), Member(name, w), b);
    MemberLength(name, v, w);
  }

  lemma StringLength(s: string)
    ensures |Dumps(Str(s))| == |Dumps(Str(""))| + |Escape(s)|
  {
    assert Escape("") == "";
  }

  /** The envelope is exactly as much longer than the empty template as the escaped preview. */
  lemma TemplateLength(h: Head, cap: nat, preview: string)
    ensures |Dumps(Template(h, cap, preview))| == |Dumps(Template(h, cap, ""))| + |Escape(preview)|
  {
    StringLength(preview);
    ValueLength(PREVIEW_HEAD, "preview", Str(preview), Str(""), PREVIEW_TAIL);
    var tail := Tail(h.error, Truncation("content_cap_exceeded", cap));
    ValueLength(h.members, "data", PreviewOf(preview), PreviewOf(""), tail);
  }

  /** Escaping works character by character and never shrinks. */
  lemma {:induction false} EscapeOfPrefix(s: string, n: nat)
    requires n <= |s|
    ensures |Escape(s[..n])| + (|s| - n) <= |Escape(s)|
  {
    if n == 0 {
      EscapeNeverShrinks(s);
    } else {
      EscapeOfPrefix(s[1..], n - 1);
      assert s[..n][1..] == s[1..][..n - 1];
    }
  }

  lemma {:induction false} EscapeNeverShrinks(s: string)
    ensures |s| <= |Escape(s)|
  {
    if s != "" {
      EscapeNeverShrinks(s[1..]);
    }
  }

  // ---------------------------------------------------------------- truncation

  function Keep(n: int, s: string): string { if n <= 0 then "" else if n >= |s| then s else s[..n] }

  /** After cutting the excess from the preview, the text fits or the preview is gone. */
  lemma OneShaveIsEnough(h: Head, cap: nat, preview: string)
    requires |Dumps(Template(h, cap, preview))| > cap
    ensures var shaved := Keep(|preview| - (|Dumps(Template(h, cap, preview))| - cap), preview);
      shaved == "" || |Dumps(Template(h, cap, shaved))| <= cap
  {
    var excess := |Dumps(Template(h, cap, preview))| - cap;
    if excess < |preview| {
      var shaved := preview[..|preview| - excess];
      TemplateLength(h, cap, preview);
      TemplateLength(h, cap, shaved);
      EscapeOfPrefix(preview, |preview| - excess);
    }
  }

  /** How much of the payload is shown: what the cap leaves, less what escaping overshoots. */
  function Shown(cap: nat, empty: nat, dataJson: string): nat {
    var first := Keep(cap - empty + 2, dataJson);
    var over := empty + |Escape(first)| - cap;
    if over <= 0 then |first| else if over <= |first| then |first| - over else 0
  }

  /** A payload that needs no escaping and is long enough fills the cap to the last character. */
  lemma PlainPayloadFillsTheCap(cap: nat, empty: nat, dataJson: string)
    requires empty <= cap && |dataJson| >= cap - empty + 2
    requires |Escape(dataJson[..cap - empty + 2])| == cap - empty + 2
    ensures empty + Shown(cap, empty, dataJson) == cap
  {
    assert Keep(cap - empty + 2, dataJson) == dataJson[..cap - empty + 2];
  }

  lemma TemplateWellFormed(h: Head, cap: nat, preview: string)
    requires WellFormedHead(h)
    ensures WellFormed(Template(h, cap, preview))
  {
    assert WellFormed(PreviewOf(preview));
    TruncationWellFormed("content_cap_exceeded", cap);
    EnvelopeWellFormed(h, PreviewOf(preview), h.error, Truncation("content_cap_exceeded", cap));
  }

  /** The text is valid JSON for a preview that is a prefix of the serialised payload, it fits the
      cap exactly when the empty template does, and the shave loop runs at most once. */
  method TruncatedEnvelope(h: Head, data: Json, cap: nat) returns (text: string, preview: string, shaves: nat)
    requires WellFormedHead(h)
    ensures preview <= Dumps(data) && text == Dumps(Template(h, cap, preview))
    ensures Loads(text) == Some(Template(h, cap, preview))
    ensures |text| <= cap <==> |Dumps(Template(h, cap, ""))| <= cap
    ensures |preview| == Shown(cap, |Dumps(Template(h, cap, ""))|, Dumps(data))
    ensures shaves <= 1
  {
    var dataJson := Dumps(data);
    var empty := |Dumps(Template(h, cap, ""))|;
    preview := Keep(cap - (empty - 2), dataJson);
    text := Dumps(Template(h, cap, preview));
    shaves := 0;
    ghost var first, over := preview, |text| - cap;
    while |text| > cap && preview != ""
      invariant text == Dumps(Template(h, cap, preview))
      invariant shaves == 0 ==> preview == first
      invariant shaves != 0 ==>
        shaves == 1 && over > 0 && preview == Keep(|first| - over, first) && (preview == "" || |text| <= cap)
      decreases |preview|
    {
      OneShaveIsEnough(h, cap, preview);
      preview := Keep(|preview| - (|text| - cap), preview);
      text := Dumps(Template(h, cap, preview));
      shaves := shaves + 1;
    }
    Settles(h, cap, dataJson, first, preview, shaves);
    TemplateReadsBack(h, cap, preview);
  }

  lemma TemplateReadsBack(h: Head, cap: nat, preview: string)
    requires WellFormedHead(h)
    ensures Loads(Dumps(Template(h, cap, preview))) == Some(Template(h, cap, preview))
  {
    TemplateWellFormed(h, cap, preview);
    LoadsDumps(Template(h, cap, preview));
  }

  lemma Settles(h: Head, cap: nat, dataJson: string, first: string, preview: string, shaves: nat)
    requires first == Keep(cap - (|Dumps(Template(h, cap, ""))| - 2), dataJson)
    requires |Dumps(Template(h, cap, preview))| <= cap || preview == ""
    requires shaves == 0 ==> preview == first
    requires shaves != 0 ==>
      var over := |Dumps(Template(h, cap, first))| - cap;
      over > 0 && preview == Keep(|first| - over, first)
    ensures preview <= dataJson && |preview| == Shown(cap, |Dumps(Template(h, cap, ""))|, dataJson)
    ensures |Dumps(Template(h, cap, preview))| <= cap <==> |Dumps(Template(h, cap, ""))| <= cap
  {
    TemplateLength(h, cap, first);
    TemplateLength(h, cap, preview);
    FinalPreview(cap, |Dumps(Template(h, cap, ""))|, dataJson, first, preview, shaves);
  }

  lemma FinalPreview(cap: nat, empty: nat, dataJson: string, first: string, preview: string, shaves: nat)
    requires first == Keep(cap - (empty - 2), dataJson)
    requires shaves == 0 ==> preview == first && (empty + |Escape(first)| <= cap || first == "")
    requires shaves != 0 ==>
      empty + |Escape(first)| > cap && preview == Keep(|first| - (empty + |Escape(first)| - cap), first)
    ensures preview <= dataJson && |preview| == Shown(cap, empty, dataJson)
  {
  }

  // ------------------------------------------------------------ the whole envelope

  /** Text-only payloads are wrapped, so that data is never a bare string. */
  function Payload(data: Json): Json { if data.Str? then Obj([Member("text", data)]) else data }

  /** What survives of an oversized error: everything but its details. */
  function Degraded(error: Json): Json {
    if !error.Obj? then error
    else Obj([Member("code", Get(error, "code")), Member("message", Get(error, "message")),
              Member("retryable", Get(error, "retryable")), Member("details", Obj([]))])
  }

  function DegradedEnvelope(h: Head, data: Json, cap: nat): Json {
    EnvelopeOf(h, data, Degraded(h.error), Truncation("error_details_dropped", cap))
  }

  lemma {:induction false} GetWellFormed(ms: seq<Member>, name: string)
    requires forall m <- ms :: WellFormed(m.value)
    ensures WellFormed(GetFrom(ms, name))
  {
    if ms != [] {
      GetWellFormed(ms[..|ms| - 1], name);
    }
  }

  lemma DegradedWellFormed(error: Json)
    requires WellFormed(error)
    ensures WellFormed(Degraded(error))
  {
    if error.Obj? {
      GetWellFormed(error.members, "code");
      GetWellFormed(error.members, "message");
      GetWellFormed(error.members, "retryable");
    }
  }

  /** Code, message and retryable survive, whatever else the error held; only details are emptied. */
  lemma DegradedKeeps(error: Json)
    requires error.Obj?
    ensures Get(Degraded(error), "code") == Get(error, "code")
    ensures Get(Degraded(error), "message") == Get(error, "message")
    ensures Get(Degraded(error), "retryable") == Get(error, "retryable")
    ensures Get(Degraded(error), "details") == Obj([])
  {
    var code, message, retryable, details :=
      Member("code", Get(error, "code")), Member("message", Get(error, "message")),
      Member("retryable", Get(error, "retryable")), Member("details", Obj([]));
    assert Degraded(error).members == [] + [code] + [message] + [retryable] + [details];
    forall name
      ensures GetFrom(Degraded(error).members, name) ==
        if name == "details" then details.value else if name == "retryable" then retryable.value
        else if name == "message" then message.value else if name == "code" then code.value else Null
    {
      GetSnoc([], code, name);
      GetSnoc([] + [code], message, name);
      GetSnoc([] + [code] + [message], retryable, name);
      GetSnoc([] + [code] + [message] + [retryable], details, name);
    }
  }

  lemma TruncationWellFormed(reason: string, cap: nat)
    ensures WellFormed(Truncation(reason, cap))
  {
    Keys.ParsePrint(cap);
    assert WellFormed(Num(Keys.PrintNat(cap)));
  }

  lemma EnvelopeWellFormed(h: Head, data: Json, error: Json, truncation: Json)
    requires WellFormedHead(h) && WellFormed(data) && WellFormed(error) && WellFormed(truncation)
    ensures WellFormed(EnvelopeOf(h, data, error, truncation))
  {
    var ms := h.members + [Member("data", data)] + Tail(error, truncation);
    forall m | m in ms
      ensures WellFormed(m.value)
    {
      var i :| 0 <= i < |ms| && ms[i] == m;
    }
  }

  /** The envelope a result is answered with, when no preview is needed. */
  function Answer(h: Head, ok: bool, data: Json, cap: nat): Json {
    var whole := EnvelopeOf(h, data, h.error, Null);
    if cap == 0 || |Dumps(whole)| <= cap || ok then whole else DegradedEnvelope(h, data, cap)
  }

  lemma AnswerWellFormed(h: Head, ok: bool, data: Json, cap: nat)
    requires WellFormedHead(h) && WellFormed(data)
    ensures WellFormed(Answer(h, ok, data, cap))
  {
    DegradedWellFormed(h.error);
    TruncationWellFormed("error_details_dropped", cap);
    EnvelopeWellFormed(h, data, h.error, Null);
    EnvelopeWellFormed(h, data, Degraded(h.error), Truncation("error_details_dropped", cap));
  }

  /** A payload too large for its envelope, in an answer that may not drop it. */
  predicate NeedsPreview(h: Head, ok: bool, data: Json, cap: nat) {
    ok && cap > 0 && |Dumps(EnvelopeOf(h, data, h.error, Null))| > cap
  }

  /** result_envelope_json: the text is always JSON that reads back; within the cap, or without one,
      it is the complete envelope, and otherwise a success is previewed and a failure loses its details. */
  method ResultEnvelope(h: Head, ok: bool, payload: Json, cap: nat) returns (text: string)
    requires WellFormedHead(h) && WellFormed(payload)
    ensures var data := Payload(payload);
      && (!NeedsPreview(h, ok, data, cap) ==>
          Loads(text) == Some(Answer(h, ok, data, cap)) && text == Dumps(Answer(h, ok, data, cap)))
      && (NeedsPreview(h, ok, data, cap) ==>
          exists preview :: preview <= Dumps(data) && Loads(text) == Some(Template(h, cap, preview))
            && (|text| <= cap <==> |Dumps(Template(h, cap, ""))| <= cap))
  {
    var data := Payload(payload);
    text := Dumps(EnvelopeOf(h, data, h.error, Null));
    if cap > 0 && |text| > cap && ok {
      var preview, shaves;
      text, preview, shaves := TruncatedEnvelope(h, data, cap);
      return;
    }
    if cap > 0 && |text| > cap {
      text := Dumps(DegradedEnvelope(h, data, cap));
    }
    AnswerWellFormed(h, ok, data, cap);
    LoadsDumps(Answer(h, ok, data, cap));
  }
}
