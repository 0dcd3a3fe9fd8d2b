/** load_events of verifier/verifier.py and analyzer/rule_analyzer.py: from the bytes of events.jsonl
    to the events that are compared and scored. */
module TraceReader {
  import opened CText
  import opened EventText
  import opened Json
  import opened Verifier

  // ---------- UTF-8 ----------

  predicate InRange(s: string, i: nat, low: nat, high: nat) { i < |s| && low <= s[i] as nat <= high }

  predicate Continues(s: string, i: nat) { InRange(s, i, 0x80, 0xbf) }

  /** What the second byte may be, given the first of a three- or four-byte sequence. */
  predicate SecondFits(s: string, b: nat) {
    if b == 0xe0 then InRange(s, 1, 0xa0, 0xbf)
    else if b == 0xed then InRange(s, 1, 0x80, 0x9f)
    else if b == 0xf0 then InRange(s, 1, 0x90, 0xbf)
    else if b == 0xf4 then InRange(s, 1, 0x80, 0x8f)
    else Continues(s, 1)
  }

  /** The length of the well-formed UTF-8 sequence s starts with, or 0; overlong forms, surrogates and
      numbers above 0x10ffff are not well-formed. */
  function CharLength(s: string): (n: nat)
    ensures n <= |s|
  {
    if s == "" then 0
    else
      var b := s[0] as nat;
      if b < 0x80 then 1
      else if 0xc2 <= b <= 0xdf && Continues(s, 1) then 2
      else if 0xe0 <= b <= 0xef && SecondFits(s, b) && Continues(s, 2) then 3
      else if 0xf0 <= b <= 0xf4 && SecondFits(s, b) && Continues(s, 2) && Continues(s, 3) then 4
      else 0
  }

  predicate Utf8(s: string)
    decreases |s|
  {
    s == "" || (CharLength(s) > 0 && Utf8(s[CharLength(s)..]))
  }

  /** How far s is well-formed from its front. */
  function GoodLength(s: string): (n: nat)
    ensures n <= |s|
    decreases |s|
  {
    if CharLength(s) == 0 then 0 else CharLength(s) + GoodLength(s[CharLength(s)..])
  }

  lemma {:induction false} Utf8IsGood(s: string)
    ensures Utf8(s) <==> GoodLength(s) == |s|
    decreases |s|
  {
    hide CharLength;
    if CharLength(s) > 0 {
      Utf8IsGood(s[CharLength(s)..]);
    } else {
      NoCharLength(s);
    }
  }

  lemma NoCharLength(s: string)
    ensures s == "" ==> CharLength(s) == 0
  {
  }

  lemma CharLengthLocal(a: string, b: string)
    ensures CharLength(a) > 0 ==> CharLength(a + b) == CharLength(a)
  {
  }

  /** Well-formed text in front does not matter. */
  lemma {:induction false} Utf8Concat(a: string, b: string)
    requires Utf8(a)
    ensures Utf8(a + b) <==> Utf8(b)
    decreases |a|
  {
    hide CharLength;
    if a == "" {
      assert a + b == b;
    } else {
      var n := CharLength(a);
      CharLengthLocal(a, b);
      assert (a + b)[n..] == a[n..] + b;
      Utf8Concat(a[n..], b);
    }
  }

  lemma {:induction false} AsciiUtf8(s: string)
    requires forall i :: 0 <= i < |s| ==> s[i] as nat < 0x80
    ensures Utf8(s)
  {
    if s != "" {
      assert CharLength(s) == 1;
      AsciiUtf8(s[1..]);
    }
  }

  // ---------- lines ----------

  /** The next line and what follows it; in text mode a carriage return ends a line too. */
  function NextLine(text: string): (r: (string, string))
    ensures text != "" ==> |r.1| < |text|
  {
    if text == "" then ("", "")
    else if text[0] == '\n' then ("", text[1..])
    else if text[0] == '\r' then ("", if |text| > 1 && text[1] == '\n' then text[2..] else text[1..])
    else
      var (l, rest) := NextLine(text[1..]);
      ([text[0]] + l, rest)
  }

  predicate IsSpaceChar(c: char) { c == ' ' || '\t' <= c <= '\r' || 0x1c <= c as nat <= 0x1f }

  function StripLeft(s: string): string {
    if s != "" && IsSpaceChar(s[0]) then StripLeft(s[1..]) else s
  }

  function StripRight(s: string): string {
    if s != "" && IsSpaceChar(s[|s| - 1]) then StripRight(s[..|s| - 1]) else s
  }

  function Strip(s: string): string { StripLeft(StripRight(s)) }

  // ---------- from a JSON object to what is compared ----------

  /** A string or nothing; None for any other value. */
  function TextOf(v: Value): Option<Option<string>> {
    if v.Null? then Some(None) else if v.JString? then Some(Some(v.s)) else None
  }

  function IntOf(v: Value): Option<Option<int>> {
    if v.Null? then Some(None) else if v.Integer? then Some(Some(v.n)) else None
  }

  /** The members of an object, or of nothing. */
  function MembersOf(v: Value): Option<seq<Member>> {
    if v.Null? then Some([]) else if v.Object? then Some(v.members) else None
  }

  function PayloadOf(ms: seq<Member>): Option<Option<JsonPayload>> {
    var length, sha := IntOf(Get(ms, KeyText(Length))), TextOf(Get(ms, KeyText(Sha256Key)));
    if ms == [] then Some(None)
    else if length.None? || sha.None? then None
    else Some(Some(JsonPayload(length.value, sha.value)))
  }

  /** What the verifier and the analyzer look at; None for a value that has not the types of an event. */
  function EventOf(v: Value): Option<JsonEvent> {
    if !v.Object? then None
    else
      var ms := v.members;
      var etype, name := TextOf(Get(ms, KeyText(Etype))), TextOf(Get(ms, KeyText(Name)));
      var seqNo, ret := IntOf(Get(ms, KeyText(Seq))), IntOf(Get(ms, KeyText(Ret)));
      var errno := IntOf(Get(ms, KeyText(Errno)));
      var args, ref := MembersOf(Get(ms, KeyText(Args))), MembersOf(Get(ms, KeyText(PayloadRefKey)));
      if etype.None? || name.None? || seqNo.None? || ret.None? || errno.None? || args.None? || ref.None? then None
      else
        var no, payload := IntOf(Get(args.value, KeyText(SyscallNo))), PayloadOf(ref.value);
        if no.None? || payload.None? then None
        else Some(JsonEvent(etype.value, name.value, seqNo.value, no.value, ret.value, errno.value, payload.value))
  }

  // ---------- load_events ----------

  /** What one line gives: nothing, a JSONDecodeError, an event, or a value no event has the types of. */
  datatype LineResult = Blank | Undecodable | Decoded(event: JsonEvent) | Foreign

  function ReadLine(line: string): LineResult {
    var text := Strip(line);
    if text == "" then Blank
    else
      match Loads(text)
      case None => Undecodable
      case Some(v) =>
        match EventOf(v)
        case None => Foreign
        case Some(e) => Decoded(e)
  }

  /** The events before the first undecodable line, and the number of that line if there is one. */
  datatype Trace = Trace(events: seq<JsonEvent>, failed: Option<nat>)

  function ReadTrace(text: string, lineNo: nat): Option<Trace>
    decreases |text|
  {
    if text == "" then Some(Trace([], None))
    else
      var (line, rest) := NextLine(text);
      match ReadLine(line)
      case Blank => ReadTrace(rest, lineNo + 1)
      case Undecodable => Some(Trace([], Some(lineNo)))
      case Foreign => None
      case Decoded(e) => Preceded(e, ReadTrace(rest, lineNo + 1))
  }

  function Preceded(e: JsonEvent, t: Option<Trace>): Option<Trace> {
    if t.Some? then Some(Trace([e] + t.value.events, t.value.failed)) else None
  }

  /** The stand-in for a line that does not decode. */
  function TraceError(lineNo: nat): JsonEvent {
    JsonEvent(Some("TRACE_ERROR"), Some("json_decode_error"), Some(lineNo), None, None, None, None)
  }

  /** How much of the text has been handed out as lines when reading ends. */
  function HandedOut(text: string): (n: nat)
    ensures n <= |text|
    decreases |text|
  {
    if text == "" then 0
    else
      var (line, rest) := NextLine(text);
      if ReadLine(line).Undecodable? then |text| - |rest| else |text| - |rest| + HandedOut(rest)
  }

  /** Decoding does not raise: the file is UTF-8, or what is not lies further on than the bytes that were
      decoded, `ahead` of the lines handed out, when reading stopped at a broken line. */
  predicate Decodable(text: string, ahead: nat) { Utf8(text) || HandedOut(text) + ahead <= GoodLength(text) }

  lemma {:induction false} AllHandedOut(text: string, lineNo: nat)
    requires ReadTrace(text, lineNo).Some? && ReadTrace(text, lineNo).value.failed.None?
    ensures HandedOut(text) == |text|
    decreases |text|
  {
    hide ReadLine, NextLine;
    if text != "" {
      AllHandedOut(NextLine(text).1, lineNo + 1);
    }
  }

  /** Without a broken line all of the file is decoded, and any byte that is not UTF-8 is met. */
  lemma WholeFileDecoded(text: string, ahead: nat)
    requires ReadTrace(text, 1).Some? && ReadTrace(text, 1).value.failed.None?
    ensures Decodable(text, ahead) <==> Utf8(text)
  {
    hide Utf8, ReadTrace, HandedOut, GoodLength;
    AllHandedOut(text, 1);
    Utf8IsGood(text);
  }

  /** The verifier's events: None when reading raises, because it meets bytes that are not UTF-8 or a line
      that decodes to something else than an event. */
  function LoadEvents(text: string, ahead: nat): Option<seq<JsonEvent>> {
    if !Decodable(text, ahead) then None
    else
      match ReadTrace(text, 1)
      case None => None
      case Some(t) => Some(t.events + if t.failed.Some? then [TraceError(t.failed.value)] else [])
  }

  /** The analyzer's events: the same without the stand-in. */
  function LoadQuietly(text: string, ahead: nat): Option<seq<JsonEvent>> {
    if !Decodable(text, ahead) then None
    else
      match ReadTrace(text, 1)
      case None => None
      case Some(t) => Some(t.events)
  }

  /** The loop both load_events are: it stops at the first line that is no JSON. */
  method ReadLines(text: string) returns (r: Option<Trace>, handedOut: nat)
    ensures r == ReadTrace(text, 1)
    ensures r.Some? ==> handedOut == HandedOut(text)
  {
    hide ReadLine, NextLine;
    var events: seq<JsonEvent> := [];
    var rest, lineNo := text, 1;
    handedOut := 0;
    JoinNothing(ReadTrace(text, 1));
    while rest != ""
      invariant lineNo >= 1 && ReadTrace(text, 1) == Join(events, ReadTrace(rest, lineNo))
      invariant handedOut + HandedOut(rest) == HandedOut(text)
      decreases |rest|
    {
      var (line, next) := NextLine(rest);
      handedOut := handedOut + |rest| - |next|;
      match ReadLine(line) {
        case Blank =>
        case Undecodable =>
          assert ReadTrace(rest, lineNo) == Some(Trace([], Some(lineNo)));
          assert events + [] == events;
          return Some(Trace(events, Some(lineNo))), handedOut;
        case Foreign =>
          return None, handedOut;
        case Decoded(e) =>
          JoinAfter(events, e, ReadTrace(next, lineNo + 1));
          events := events + [e];
      }
      rest, lineNo := next, lineNo + 1;
    }
    assert events + [] == events;
    r := Some(Trace(events, None));
  }

  /** load_events of the verifier. */
  method Load(text: string, ahead: nat) returns (r: Option<seq<JsonEvent>>)
    ensures r == LoadEvents(text, ahead)
  {
    hide Utf8, ReadTrace, GoodLength, HandedOut;
    var t, handedOut := ReadLines(text);
    if t.None? || !(Utf8(text) || handedOut + ahead <= GoodLength(text)) {
      return None;
    }
    r := Some(t.value.events + if t.value.failed.Some? then [TraceError(t.value.failed.value)] else []);
  }

  /** load_events of the analyzer. */
  method LoadForAnalysis(text: string, ahead: nat) returns (r: Option<seq<JsonEvent>>)
    ensures r == LoadQuietly(text, ahead)
  {
    hide Utf8, ReadTrace, GoodLength, HandedOut;
    var t, handedOut := ReadLines(text);
    r := if t.Some? && (Utf8(text) || handedOut + ahead <= GoodLength(text)) then Some(t.value.events) else None;
  }

  function Join(events: seq<JsonEvent>, t: Option<Trace>): Option<Trace> {
    if t.Some? then Some(Trace(events + t.value.events, t.value.failed)) else None
  }

  lemma JoinNothing(t: Option<Trace>)
    ensures Join([], t) == t
  {
    if t.Some? {
      assert [] + t.value.events == t.value.events;
    }
  }

  lemma JoinAfter(events: seq<JsonEvent>, e: JsonEvent, t: Option<Trace>)
    ensures Join(events, Preceded(e, t)) == Join(events + [e], t)
  {
    if t.Some? {
      assert events + ([e] + t.value.events) == events + [e] + t.value.events;
    }
  }

  // ---------- lines of a printed file ----------

  predicate HoldsNewline(s: string) { '\n' in s || '\r' in s }

  lemma {:induction false} NextLineOf(l: string, rest: string)
    requires !HoldsNewline(l)
    ensures NextLine(l + "\n" + rest) == (l, rest)
  {
    var text := l + "\n" + rest;
    if l == "" {
      assert text == "\n" + rest && text[1..] == rest;
    } else {
      assert l[0] in l && l[0] != '\n' && l[0] != '\r';
      assert forall c :: c in l[1..] ==> c in l;
      assert text[1..] == l[1..] + "\n" + rest;
      NextLineOf(l[1..], rest);
      assert l == [l[0]] + l[1..] && text[0] == l[0];
    }
  }

  /** With a newline inside, the line ends before it. */
  lemma {:induction false} NextLineCut(l: string, rest: string)
    requires HoldsNewline(l)
    ensures var f := NextLine(l + rest).0; f <= l && |f| < |l| && !HoldsNewline(f) && l[|f|] in "\n\r"
  {
    var text := l + rest;
    var f := NextLine(text).0;
    if l[0] != '\n' && l[0] != '\r' {
      assert l == [l[0]] + l[1..];
      assert text[1..] == l[1..] + rest;
      NextLineCut(l[1..], rest);
      assert f == [l[0]] + f[1..] && f[1..] <= l[1..];
      assert forall c :: c in f ==> c == l[0] || c in f[1..];
    } else {
      assert f == "";
    }
  }

  /** A text between braces has nothing to strip. */
  lemma StripBraces(s: string)
    requires s != "" && s[0] == '{' && s[|s| - 1] == '}'
    ensures Strip(s) == s
  {
  }

  /** Stripping a text that begins with h, h ending in no space, keeps h. */
  lemma {:induction false} StripKeepsHead(h: string, c: string)
    requires h != "" && !IsSpaceChar(h[0]) && !IsSpaceChar(h[|h| - 1])
    ensures h <= Strip(h + c) <= h + c
  {
    var s := h + c;
    if c != "" && IsSpaceChar(s[|s| - 1]) {
      assert s[..|s| - 1] == h + c[..|c| - 1];
      StripKeepsHead(h, c[..|c| - 1]);
    } else {
      assert StripRight(s) == s;
    }
  }
}
