/** metadata.json: what the recorder writes and how the replayer finds the target in it. */
module Metadata {
  import opened CText
  import opened JsonText

  const NEEDLE := "\"target\":\""
  const BUFFER := 8192
  const PATH_MAX := 4096

  // ---------- the recorder's side ----------

  /** adr_basename_const */
  function Basename(path: string): (r: string)
    ensures Lacks(r, '/') && |r| <= |path|
    ensures |r| < |path| ==> path[|path| - |r| - 1] == '/'
  {
    if path == "" || path[|path| - 1] == '/' then ""
    else Basename(path[..|path| - 1]) + [path[|path| - 1]]
  }

  const SCHEMA := "{\n  \"schema_version\":"
  const VERSION := "\"adr.metadata.v1\","
  const RUN_ID := "\n  \"run_id\":"
  const OPENING := SCHEMA + VERSION + RUN_ID
  const MODE := ",\n  \"mode\":\"record\",\n  "
  const TARGET := "\"target\":"
  const ARGV := ",\n  \"argv\":["
  const ARCH := "],\n  \"arch\":\"x86_64\","
  const ADR_VERSION := "\n  \"adr_version\":\"0.1.0\"\n}\n"
  const CLOSING := ARCH + ADR_VERSION

  function Preface(runId: string): string { OPENING + Escape(runId) + MODE + TARGET }

  function Arguments(argv: seq<string>): string {
    if argv == [] then ""
    else Arguments(argv[..|argv| - 1]) + (if |argv| > 1 then "," else "") + Escape(argv[|argv| - 1])
  }

  function Tail(argv: seq<string>): string { ARGV + Arguments(argv) + CLOSING }

  function WrittenText(runId: string, target: string, argv: seq<string>): string {
    Preface(runId) + Escape(target) + Tail(argv)
  }

  predicate IsCString(s: string) { Lacks(s, '\0') }

  method EscapeCString(s: string) returns (out: string)
    requires IsCString(s)
    ensures out == Escape(s)
  {
    out := JsonEscape(Some(s + ['\0']));
    BeforeFirst(s, '\0', "");
    assert s + ['\0'] + "" == s + ['\0'];
  }

  method WriteArguments(argv: seq<string>) returns (text: string)
    requires forall i :: 0 <= i < |argv| ==> IsCString(argv[i])
    ensures text == Arguments(argv)
  {
    hide Escape;
    text := "";
    var i := 0;
    while i < |argv|
      invariant i <= |argv| && text == Arguments(argv[..i])
    {
      assert argv[..i + 1][..i] == argv[..i];
      if i != 0 {
        text := text + ",";
      }
      var e := EscapeCString(argv[i]);
      text := text + e;
      i := i + 1;
    }
    assert argv[..|argv|] == argv;
  }

  /** write_metadata */
  method WriteMetadata(outDir: string, target: string, argv: seq<string>) returns (text: string)
    requires IsCString(outDir) && IsCString(target) && forall i :: 0 <= i < |argv| ==> IsCString(argv[i])
    ensures text == WrittenText(Basename(outDir), target, argv)
  {
    hide Basename, Escape, Arguments;
    assert IsCString(Basename(outDir)) by { BasenameIsPart(outDir); }
    var runId := EscapeCString(Basename(outDir));
    var quoted := EscapeCString(target);
    var arguments := WriteArguments(argv);
    text := OPENING + runId + MODE + TARGET + quoted + (ARGV + arguments + CLOSING);
  }

  lemma {:induction false} BasenameIsPart(path: string)
    ensures Basename(path) == path[|path| - |Basename(path)|..]
    ensures forall c :: c in Basename(path) ==> c in path
  {
    if path != "" && path[|path| - 1] != '/' {
      BasenameIsPart(path[..|path| - 1]);
    }
  }

  // ---------- the replayer's side ----------

  /** What the C string functions see of the file: at most 8191 bytes, up to the first NUL. */
  function Loaded(file: string): string { CString(if |file| < BUFFER then file else file[..BUFFER - 1]) }

  /** parse_target_from_metadata, into a buffer of PATH_MAX chars */
  function ParseTarget(file: string): Option<string> {
    match FindAfter(Loaded(file), NEEDLE)
    case None => None
    case Some(p) =>
      match Before(p, '"')
      case None => None
      case Some(t) => Some(Snprintf(PATH_MAX, t))
  }

  // ---------- the first "target":" is the real one ----------

  lemma NeedleParts()
    ensures NEEDLE == "\"" + "target" + "\"" + ":\"" && NEEDLE == TARGET + "\""
    ensures Plain("target") && Lacks("target", '"')
  {
  }

  /** Every quote is followed by some char other than a t. */
  predicate NoQuotedT(p: string) {
    forall i :: 0 <= i < |p| && p[i] == '"' ==> i + 1 < |p| && p[i + 1] != 't'
  }

  /** Such text holds no start of the needle. */
  lemma {:induction false} FixedSkipped(p: string, s: string)
    requires NoQuotedT(p)
    ensures FindAfter(p + s, NEEDLE) == FindAfter(s, NEEDLE)
  {
    if p == "" {
      assert p + s == s;
    } else {
      assert (p + s)[1..] == p[1..] + s;
      assert NEEDLE[0] == '"' && NEEDLE[1] == 't';
      FixedSkipped(p[1..], s);
    }
  }

  lemma FixedConcat(p: string, q: string)
    requires NoQuotedT(p) && NoQuotedT(q)
    ensures NoQuotedT(p + q)
  {
  }

  lemma OpeningFixed()
    ensures NoQuotedT(OPENING)
  {
    assert NoQuotedT(SCHEMA);
    assert NoQuotedT(VERSION);
    assert NoQuotedT(RUN_ID);
    FixedConcat(SCHEMA, VERSION);
    FixedConcat(SCHEMA + VERSION, RUN_ID);
  }

  lemma ModeFixed()
    ensures NoQuotedT(MODE)
  {
  }

  lemma RunIdSkipped(runId: string, y: string)
    requires y != "" && y[0] == ','
    ensures FindAfter(Escape(runId) + y, NEEDLE) == FindAfter(y, NEEDLE)
  {
    hide FindAfter, EscapeBody;
    NeedleParts();
    EscapedWord("target", ":\"", runId, y);
    var more := EscapeBody(runId) + "\"" + y;
    QuoteSkipped("target", ":\"", more);
    FindSkipsEscaped("target", ":\"", runId, y);
    assert Escape(runId) + y == "\"" + more;
  }

  lemma FoundAtOnce(rest: string)
    ensures FindAfter(NEEDLE + rest, NEEDLE) == Some(rest)
  {
    assert NEEDLE <= NEEDLE + rest && (NEEDLE + rest)[|NEEDLE|..] == rest;
  }

  /** Whatever the run is called, the first occurrence of the needle is the real field. */
  lemma TargetFound(runId: string, rest: string)
    ensures FindAfter(Preface(runId) + "\"" + rest, NEEDLE) == Some(rest)
  {
    hide FindAfter, Escape, NoQuotedT;
    NeedleParts();
    OpeningFixed();
    ModeFixed();
    var z := MODE + (NEEDLE + rest);
    assert Preface(runId) + "\"" + rest == OPENING + (Escape(runId) + z);
    FixedSkipped(OPENING, Escape(runId) + z);
    RunIdSkipped(runId, z);
    FixedSkipped(MODE, NEEDLE + rest);
    FoundAtOnce(rest);
  }

  /** A parser that undid the escapes would recover every target, for every run. */
  lemma UnescapingWouldRecover(runId: string, target: string, argv: seq<string>)
    ensures var p := FindAfter(WrittenText(runId, target, argv), NEEDLE);
            p.Some? && ReadString(p.value) == Some(Token(target, Tail(argv)))
  {
    hide FindAfter, EscapeBody, ReadString, Arguments, Tail, Preface;
    var rest := EscapeBody(target) + "\"" + Tail(argv);
    assert WrittenText(runId, target, argv) == Preface(runId) + "\"" + rest;
    TargetFound(runId, rest);
    EscapeReads(target, Tail(argv));
  }

  // ---------- what the buffers cut off ----------

  lemma {:induction false} TooShort(s: string, needle: string)
    requires |s| < |needle|
    ensures FindAfter(s, needle) == None
  {
    if s != "" {
      TooShort(s[1..], needle);
    }
  }

  /** Searching only the first n chars finds the same place, or nothing if it is not all there. */
  lemma {:induction false} FindCut(s: string, needle: string, rest: string, n: nat)
    requires n <= |s| && FindAfter(s, needle) == Some(rest)
    ensures |rest| <= |s|
    ensures FindAfter(s[..n], needle) == if n < |s| - |rest| then None else Some(rest[..n - (|s| - |rest|)])
  {
    if needle <= s {
      if n < |needle| {
        TooShort(s[..n], needle);
      } else {
        assert needle <= s[..n] && s[..n][|needle|..] == rest[..n - |needle|];
      }
    } else {
      FindCut(s[1..], needle, rest, if n == 0 then 0 else n - 1);
      if n > 0 {
        assert s[..n][1..] == s[1..][..n - 1];
        assert needle <= s[..n] ==> needle <= s;
      }
    }
  }

  lemma {:induction false} BeforeNone(t: string, c: char)
    requires Lacks(t, c)
    ensures Before(t, c) == None
  {
    if t != "" {
      BeforeNone(t[1..], c);
    }
  }

  lemma {:induction false} BeforeLacks(t: string, c: char)
    ensures Before(t, c).Some? ==> Before(t, c).value <= t && Lacks(Before(t, c).value, c)
    ensures Before(t, c).None? ==> Lacks(t, c)
  {
    if t != "" {
      BeforeLacks(t[1..], c);
    }
  }

  predicate Printable(s: string) { forall i :: 0 <= i < |s| ==> s[i] >= ' ' || s[i] == '\n' }

  lemma EscapePrintable(s: string)
    ensures Printable(Escape(s))
  {
    EscapedPrintable(s);
  }

  lemma {:induction false} ArgumentsPrintable(argv: seq<string>)
    ensures Printable(Arguments(argv))
  {
    hide Escape;
    if argv != [] {
      ArgumentsPrintable(argv[..|argv| - 1]);
      EscapePrintable(argv[|argv| - 1]);
    }
  }

  lemma HeadPrintable()
    ensures Printable(OPENING)
  {
    assert Printable(SCHEMA);
    assert Printable(VERSION);
    assert Printable(RUN_ID);
  }

  lemma FieldsPrintable()
    ensures Printable(MODE) && Printable(TARGET) && Printable(ARGV)
  {
    assert Printable(MODE);
    assert Printable(TARGET);
    assert Printable(ARGV);
  }

  lemma ClosingPrintable()
    ensures Printable(CLOSING)
  {
    assert Printable(ARCH);
    assert Printable(ADR_VERSION);
  }

  lemma PrintableConcat(a: string, b: string)
    requires Printable(a) && Printable(b)
    ensures Printable(a + b)
  {
  }

  lemma TextPrintable(runId: string, target: string, argv: seq<string>)
    ensures Printable(WrittenText(runId, target, argv))
  {
    hide Escape, Arguments, Printable;
    HeadPrintable();
    FieldsPrintable();
    ClosingPrintable();
    EscapePrintable(runId);
    EscapePrintable(target);
    ArgumentsPrintable(argv);
    PrintableConcat(OPENING, Escape(runId));
    PrintableConcat(OPENING + Escape(runId), MODE);
    PrintableConcat(OPENING + Escape(runId) + MODE, TARGET);
    PrintableConcat(ARGV, Arguments(argv));
    PrintableConcat(ARGV + Arguments(argv), CLOSING);
    PrintableConcat(Preface(runId), Escape(target));
    PrintableConcat(Preface(runId) + Escape(target), Tail(argv));
  }

  /** What the parser searches for the closing quote. */
  function SearchWindow(runId: string, target: string, argv: seq<string>): string {
    var rest := EscapeBody(target) + "\"" + Tail(argv);
    var room := BUFFER - 1 - |Preface(runId)| - 1;
    if room < 0 then "" else if |rest| <= room then rest else rest[..room]
  }

  lemma LoadedIsCut(runId: string, target: string, argv: seq<string>)
    ensures var t := WrittenText(runId, target, argv);
            Loaded(t) == if |t| < BUFFER then t else t[..BUFFER - 1]
  {
    hide WrittenText, Before;
    var t := WrittenText(runId, target, argv);
    TextPrintable(runId, target, argv);
    BeforeNone(if |t| < BUFFER then t else t[..BUFFER - 1], '\0');
  }

  /** The parser finds nothing, or the part of the window before its first quote. */
  lemma ParseIsOfWindow(runId: string, target: string, argv: seq<string>)
    ensures var t := Before(SearchWindow(runId, target, argv), '"');
            ParseTarget(WrittenText(runId, target, argv)) == if t.None? then None else Some(Snprintf(PATH_MAX, t.value))
  {
    hide FindAfter, EscapeBody, Tail, Preface, Loaded;
    var rest := EscapeBody(target) + "\"" + Tail(argv);
    var t := WrittenText(runId, target, argv);
    assert t == Preface(runId) + "\"" + rest;
    TargetFound(runId, rest);
    LoadedIsCut(runId, target, argv);
    var n := if |t| < BUFFER then |t| else BUFFER - 1;
    assert t[..|t|] == t && rest[..|rest|] == rest;
    FindCut(t, NEEDLE, rest, n);
    assert Before("", '"') == None;
  }

  // ---------- exactly when the target comes back ----------

  /** The closing quote is among the bytes that are read. */
  predicate QuoteLoaded(runId: string, target: string) {
    |Preface(runId)| + 1 + |EscapeBody(target)| < 8191
  }

  predicate AllBackslashes(s: string) { forall i :: 0 <= i < |s| ==> s[i] == '\\' }

  /** Plain text, then one or more backslashes and nothing else. */
  predicate BackslashTail(s: string) {
    s != "" && if s[0] == '\\' then AllBackslashes(s) else !NeedsEscape(s[0]) && BackslashTail(s[1..])
  }

  lemma {:induction false} BackslashesDoubled(s: string)
    requires AllBackslashes(s)
    ensures AllBackslashes(EscapeBody(s)) && |EscapeBody(s)| == 2 * |s|
  {
    if s != "" {
      BackslashesDoubled(s[1..]);
    }
  }

  /** A text that starts with a backslash and is the start of its own escaped form is backslashes. */
  lemma {:induction false} OwnEscapePrefix(s: string, j: nat)
    requires 0 < j <= |s| && s[0] == '\\' && s <= EscapeBody(s)
    ensures AllBackslashes(s[..j])
  {
    if j > 1 {
      OwnEscapePrefix(s, j - 1);
      BackslashesDoubled(s[..j - 1]);
      assert s == s[..j - 1] + s[j - 1..];
      EscapeBodyConcat(s[..j - 1], s[j - 1..]);
      assert EscapeBody(s)[j - 1] == EscapeBody(s[..j - 1])[j - 1] == '\\';
    }
  }

  predicate OnlyBackslashSpecial(s: string) {
    forall i :: 0 <= i < |s| ==> !NeedsEscape(s[i]) || s[i] == '\\'
  }

  function Cut(s: string, n: nat): string { if |s| <= n then s else s[..n] }

  lemma CutAtBackslash(s: string, n: nat)
    requires s != "" && s[0] == '\\'
    ensures Cut(EscapeBody(s), n) == s <==> |s| == n && AllBackslashes(s)
  {
    hide EscapeBody;
    EscapeLonger(s);
    assert !Plain(s) by { assert NeedsEscape(s[0]); }
    if Cut(EscapeBody(s), n) == s {
      assert s <= EscapeBody(s);
      OwnEscapePrefix(s, |s|);
      assert s[..|s|] == s;
    }
    if |s| == n && AllBackslashes(s) {
      BackslashesDoubled(s);
    }
  }

  /** Which texts their escaped form, cut to n chars, still spells. */
  lemma {:induction false} CutSpells(s: string, n: nat)
    requires OnlyBackslashSpecial(s)
    ensures Cut(EscapeBody(s), n) == s <==> (Plain(s) && |s| <= n) || (|s| == n && BackslashTail(s))
  {
    if s == "" {
    } else if s[0] == '\\' {
      hide EscapeBody;
      assert !Plain(s) by { assert NeedsEscape(s[0]); }
      CutAtBackslash(s, n);
    } else if n > 0 {
      var e := EscapeBody(s[1..]);
      assert EscapeBody(s) == [s[0]] + e;
      assert forall i :: 0 <= i < |s[1..]| ==> s[1..][i] == s[i + 1];
      CutSpells(s[1..], n - 1);
      assert Cut([s[0]] + e, n) == [s[0]] + Cut(e, n - 1);
      assert s == [s[0]] + s[1..];
      assert Plain(s) <==> Plain(s[1..]) by {
        assert forall i :: 0 < i < |s| ==> s[i] == s[1..][i - 1];
      }
      assert ([s[0]] + Cut(e, n - 1))[1..] == Cut(e, n - 1);
    }
  }

  /** No quote and no control char in the target: the window before its first quote is the whole
      escaped target, if the closing quote was read at all. */
  lemma QuoteFreeWindow(runId: string, target: string, argv: seq<string>)
    requires Lacks(target, '"')
    ensures Before(SearchWindow(runId, target, argv), '"') ==
            if QuoteLoaded(runId, target) then Some(EscapeBody(target)) else None
  {
    hide EscapeBody, Before, Preface, Tail;
    var e, tail := EscapeBody(target), Tail(argv);
    EscapedQuoteFree(target);
    var rest := e + "\"" + tail;
    var room := BUFFER - 1 - |Preface(runId)| - 1;
    if QuoteLoaded(runId, target) {
      var w := SearchWindow(runId, target, argv);
      assert w == e + "\"" + w[|e| + 1..];
      BeforeFirst(e, '"', w[|e| + 1..]);
    } else {
      var w := SearchWindow(runId, target, argv);
      assert w <= e;
      BeforeNone(w, '"');
    }
  }

  lemma {:induction false} EscapedQuoteFree(s: string)
    requires Lacks(s, '"')
    ensures Lacks(EscapeBody(s), '"')
  {
    if s != "" {
      assert s == [s[0]] + s[1..];
      EscapedQuoteFree(s[1..]);
      EscapeWithoutQuote(s[0]);
    }
  }

  lemma QuoteFreePrefix(t: string, e: string, tail: string)
    requires Lacks(t, '"') && t <= e + "\"" + tail
    ensures t <= e
  {
    var rest := e + "\"" + tail;
    assert rest[|e|] == '"';
    assert forall k :: 0 <= k < |t| ==> t[k] == rest[k] && t[k] in t;
  }

  /** What the parser reads before the first quote holds neither quotes nor control chars. */
  lemma WindowReads(runId: string, target: string, argv: seq<string>)
    ensures var t := Before(SearchWindow(runId, target, argv), '"');
            t.Some? ==> forall i :: 0 <= i < |t.value| ==> t.value[i] != '"' && t.value[i] >= ' '
  {
    hide Before, Preface, Tail, EscapeBody;
    var w := SearchWindow(runId, target, argv);
    BeforeLacks(w, '"');
    EscapedPrintable(target);
    var t := Before(w, '"');
    if t.Some? {
      QuoteFreePrefix(t.value, EscapeBody(target), Tail(argv));
      assert t.value <= EscapeBody(target);
    }
  }

  lemma {:induction false} BackslashTailOnly(s: string)
    requires BackslashTail(s)
    ensures OnlyBackslashSpecial(s)
  {
    if s[0] != '\\' {
      BackslashTailOnly(s[1..]);
      assert forall i :: 0 < i < |s| ==> s[i] == s[1..][i - 1];
    }
  }

  /** The target comes back exactly when its closing quote is among the first 8191 bytes and it is
      plain text of at most 4095 chars; except that a target of exactly 4095 chars may also end in
      backslashes, because the buffer then cuts off just their doubles. */
  lemma TargetRecovered(runId: string, target: string, argv: seq<string>)
    ensures ParseTarget(WrittenText(runId, target, argv)) == Some(target) <==>
            && QuoteLoaded(runId, target)
            && ((Plain(target) && |target| <= 4095) || (|target| == 4095 && BackslashTail(target)))
  {
    hide ParseTarget, WrittenText, Before, SearchWindow, EscapeBody, BackslashTail, QuoteLoaded;
    ParseIsOfWindow(runId, target, argv);
    if OnlyBackslashSpecial(target) {
      QuoteFreeWindow(runId, target, argv);
      CutSpells(target, PATH_MAX - 1);
    } else {
      WindowReads(runId, target, argv);
      var i :| 0 <= i < |target| && NeedsEscape(target[i]) && target[i] != '\\';
      assert !Plain(target);
      if BackslashTail(target) {
        BackslashTailOnly(target);
      }
    }
  }

  /** A target with a quote in it: what comes back ends just before that quote, in a backslash the
      target does not have. */
  lemma QuotedTargetMisread(runId: string, before: string, after: string, argv: seq<string>)
    requires Plain(before) && |before| <= 4094 && |Preface(runId)| + |before| + 2 < 8191
    ensures ParseTarget(WrittenText(runId, before + "\"" + after, argv)) == Some(before + "\\")
  {
    hide ParseTarget, WrittenText, Before, EscapeBody, Tail, Preface;
    var target := before + "\"" + after;
    ParseIsOfWindow(runId, target, argv);
    EscapeBodyConcat(before, "\"" + after);
    EscapeBodyConcat("\"", after);
    EscapeOne('"');
    PlainUnchanged(before);
    assert before + ("\"" + after) == target;
    assert EscapeBody(target) == before + "\\" + "\"" + EscapeBody(after) by { QuoteEscaped(); }
    var w := SearchWindow(runId, target, argv);
    var t := before + "\\";
    assert w == t + "\"" + w[|t| + 1..];
    BeforeFirst(t, '"', w[|t| + 1..]);
  }
}
