/** When a printed line does not decode: run_id and target are printed without escaping, and a process
    body is cut to its buffer. */
module Illegible {
  import opened CText
  import opened EventText
  import opened TraceEvent
  import opened TraceLog
  import opened JsonText
  import opened Json
  import opened LineJson
  import opened EventJson
  import opened TraceReader
  import opened EventDecode
  import opened TraceText
  import opened TraceBounds

  // ---------- the part of a line that is read ----------

  /** The line that text mode makes of the printed text, stripped: it keeps a head without newlines, and
      stops at the first newline after it. */
  lemma StrippedLine(h: string, y: string, z: string, rest: string) returns (c: string)
    requires h != "" && !HoldsNewline(h) && !IsSpaceChar(h[0]) && !IsSpaceChar(h[|h| - 1])
    ensures var s := Strip(NextLine(h + y + z + "\n" + rest).0); s == h + c && c <= y + z
    ensures HoldsNewline(y) ==> c <= y
    ensures !HoldsNewline(y + z) && z != "" && !IsSpaceChar(z[|z| - 1]) ==> c == y + z
  {
    hide NextLine, Strip;
    var l := h + y + z;
    var text := l + "\n" + rest;
    var f := NextLine(text).0;
    if HoldsNewline(y) {
      NewlineInside(h, y);
      NextLineCut(h + y, z + "\n" + rest);
      assert h + y + (z + "\n" + rest) == text;
      HeadKept(h, y, f);
    } else if HoldsNewline(l) {
      NextLineCut(l, "\n" + rest);
      assert l + ("\n" + rest) == text;
      assert l == h + (y + z);
      HeadKept(h, y + z, f);
    } else {
      NextLineOf(l, rest);
      assert f == h + (y + z);
    }
    StripKeepsHead(h, f[|h|..]);
    assert f == h + f[|h|..];
    var s := Strip(f);
    c := s[|h|..];
    assert s == h + c;
    assert c <= f[|h|..];
    if !HoldsNewline(y + z) && z != "" && !IsSpaceChar(z[|z| - 1]) {
      WholeHasNone(h, y + z);
      assert l == h + (y + z);
      StripWhole(l);
    }
  }

  lemma NewlineInside(h: string, y: string)
    requires HoldsNewline(y)
    ensures HoldsNewline(h + y)
  {
    var c :| c in y && (c == '\n' || c == '\r');
    assert c in h + y;
  }

  lemma WholeHasNone(h: string, y: string)
    requires !HoldsNewline(h) && !HoldsNewline(y)
    ensures !HoldsNewline(h + y)
  {
  }

  lemma StripWhole(s: string)
    requires s != "" && !IsSpaceChar(s[0]) && !IsSpaceChar(s[|s| - 1])
    ensures Strip(s) == s
  {
  }

  /** A head without newlines is part of the line that is cut at a newline after it. */
  lemma HeadKept(h: string, y: string, f: string)
    requires !HoldsNewline(h) && f <= h + y && |f| < |h + y| && (h + y)[|f|] in "\n\r"
    ensures h <= f && f[|h|..] <= y
  {
    assert forall k :: 0 <= k < |h| ==> (h + y)[k] == h[k] && h[k] in h;
    assert f == (h + y)[..|f|];
    assert f[|h|..] == y[..|f| - |h|];
  }

  // ---------- a run_id that does not stand between quotes ----------

  /** A text value up to its opening quote. */
  function TextHead(k: Key): string { "\"" + KeyText(k) + "\":\"" }

  function NumberHead(k: Key): string { "\"" + KeyText(k) + "\":" }

  /** Every line up to the text of its run_id. */
  function RunIdHead(): string { "{" + Text(SchemaVersion, "adr.trace.v1").Print() + "," + TextHead(RunId) }

  lemma TextPrint(k: Key, raw: string)
    ensures Text(k, raw).Print() == TextHead(k) + raw + "\""
  {
    hide KeyText;
  }

  lemma NumberPrint(k: Key, n: int)
    ensures Int(k, n).Print() == NumberHead(k) + SignedDecimal(n)
  {
    hide KeyText, SignedDecimal;
  }

  lemma JoinHeader(s: string, t: string, raw: string, n: string, d: string, more: string)
    ensures "{" + (s + "," + (t + raw + "\"" + "," + (n + d + "," + more)))
         == ("{" + s + "," + t) + raw + ("\"" + "," + n + (d + "," + more))
  {
  }

  /** A header, cut open around its run_id. */
  lemma HeaderOpens(s: Stamp, tid: int, etype: string, name: string, phase: string) returns (more: string)
    ensures "{" + PrintLeaves(HeaderLeaves(s, tid, etype, name, phase))
         == RunIdHead() + s.runId + ("\"" + "," + NumberHead(Seq) + more)
  {
    var hl := HeaderLeaves(s, tid, etype, name, phase);
    var later := PrintLeaves(hl[3..]);
    more := SignedDecimal(s.seqNo) + "," + later;
    FrontLeaf(hl);
    FrontLeaf(hl[1..]);
    FrontLeaf(hl[2..]);
    assert hl[1..][1..] == hl[2..] && hl[2..][1..] == hl[3..];
    TextPrint(RunId, s.runId);
    NumberPrint(Seq, s.seqNo);
    hide PrintLeaves, Leaf.Print, TextHead, NumberHead, SignedDecimal;
    JoinHeader(hl[0].Print(), TextHead(RunId), s.runId, NumberHead(Seq), SignedDecimal(s.seqNo), later);
  }

  lemma FrontLeaf(ls: seq<Leaf>)
    requires |ls| > 1
    ensures PrintLeaves(ls) == ls[0].Print() + "," + PrintLeaves(ls[1..])
  {
    hide Leaf.Print;
    assert ls[0].Print() + ("," + PrintLeaves(ls[1..])) == ls[0].Print() + "," + PrintLeaves(ls[1..]);
  }

  lemma SchemaLegible()
    ensures ItemsLegible([One(Text(SchemaVersion, "adr.trace.v1"))])
  {
    LiteralsPlain();
    PlainLeaf(SchemaVersion, "adr.trace.v1");
    hide Inside, InsideValue, Plain;
  }

  lemma JoinHead(s: string, h: string, x: string)
    ensures ("{" + s + "," + h) + x == "{" + (s + "," + (h + x))
  {
  }

  /** Legible members, a comma, and members that do not read. */
  lemma BadObject(xs: seq<Item>, next: string)
    requires xs != [] && ItemsLegible(xs) && next != "" && next[0] == '"' && ReadMembers(next) == None
    ensures Loads("{" + (PrintItems(xs) + "," + next)) == None
  {
    hide ReadMembers, ItemsLegible, PrintItems;
    ItemsThenBad(xs, next);
    ItemsStart(xs);
    NoObject(PrintItems(xs) + "," + next);
  }

  lemma RunIdBad(x: string)
    requires ReadMembers(TextHead(RunId) + x) == None
    ensures Loads(RunIdHead() + x) == None
  {
    var leaf := Text(SchemaVersion, "adr.trace.v1");
    SchemaLegible();
    PrintOne(One(leaf));
    HeadStarts(RunId, x);
    JoinHead(leaf.Print(), TextHead(RunId), x);
    assert RunIdHead() + x == "{" + (leaf.Print() + "," + (TextHead(RunId) + x));
    hide ReadMembers, Leaf.Print, TextHead, ItemsLegible, PrintItems, RunIdHead, Loads;
    BadObject([One(leaf)], TextHead(RunId) + x);
  }

  lemma HeadStarts(k: Key, x: string)
    ensures TextHead(k) + x != "" && (TextHead(k) + x)[0] == '"'
    ensures NumberHead(k) + x != "" && (NumberHead(k) + x)[0] == '"'
  {
    hide KeyText;
  }

  /** A comma and the next key's quote close a string that swallowed its own. */
  lemma SwallowsTo(c: string, k: Key, after: string)
    requires Inside(c)
    ensures ReadString(c + ("\"" + (KeyText(k) + after))) == Some(Token(InsideValue(c), KeyText(k) + after))
    ensures Spoils(KeyText(k) + after)
  {
    hide KeyText, ReadString, Inside, InsideValue;
    KeyTextWord(k);
    assert c + ("\"" + (KeyText(k) + after)) == c + "\"" + (KeyText(k) + after);
    InsideReads(c, KeyText(k) + after);
    assert (KeyText(k) + after)[0] == KeyText(k)[0];
  }

  lemma CommaInside()
    ensures Inside(",") && Inside("},")
  {
    assert Plain(",") && Plain("},");
    PlainInside(",");
    PlainInside("},");
  }

  lemma TextHeadIs(k: Key)
    ensures TextHead(k) == "\"" + KeyText(k) + "\":\""
    ensures TextHead(k) == "\"" + (KeyText(k) + "\":\"") && NumberHead(k) == "\"" + (KeyText(k) + "\":")
  {
    hide KeyText;
  }

  lemma UnterminatedText(k: Key, c: string)
    requires Lacks(c, '"')
    ensures ReadMembers(TextHead(k) + c) == None
  {
    TextHeadIs(k);
    hide ReadMembers, KeyText, TextHead;
    UnterminatedLeaf(k, c);
  }

  /** The run_id breaks the line whatever comes after the next key. */
  lemma RunIdBreaks(runId: string, more: string)
    requires Lacks(runId, '"') && !Inside(runId)
    ensures Loads(RunIdHead() + runId + ("\"" + "," + NumberHead(Seq) + more)) == None
  {
    var rest := "," + NumberHead(Seq) + more;
    TextHeadIs(RunId);
    TextHeadIs(Seq);
    CommaInside();
    hide KeyText, TextHead, NumberHead, ReadString, ReadMembers, Inside, RunIdHead, Loads;
    SwallowsTo(",", Seq, "\":" + more);
    assert rest == "," + ("\"" + (KeyText(Seq) + ("\":" + more)));
    BrokenLeaf(RunId, runId, rest);
    assert TextHead(RunId) + (runId + "\"" + rest) == "\"" + KeyText(RunId) + "\":\"" + runId + "\"" + rest;
    RunIdBad(runId + "\"" + rest);
    assert RunIdHead() + runId + ("\"" + "," + NumberHead(Seq) + more) == RunIdHead() + (runId + "\"" + rest);
  }

  lemma RunIdHeadSolid()
    ensures var h := RunIdHead(); h != "" && !HoldsNewline(h) && h[0] == '{' && h[|h| - 1] == '"'
  {
    hide KeyText;
    KeyTextWord(SchemaVersion);
    KeyTextWord(RunId);
    assert !HoldsNewline("adr.trace.v1") by {
      assert Plain("adr.trace.v1") by { LiteralsPlain(); }
    }
    assert !HoldsNewline(KeyText(SchemaVersion)) && !HoldsNewline(KeyText(RunId));
  }

  lemma SeqHeadSolid()
    ensures var h := "\"" + "," + NumberHead(Seq); h != "" && !HoldsNewline(h) && h[|h| - 1] == ':'
  {
    hide KeyText;
    KeyTextWord(Seq);
  }

  /** A line whose run_id is broken does not decode, whatever follows. */
  lemma RunIdSpoilsLine(runId: string, more: string, rest: string)
    requires Lacks(runId, '"') && !Inside(runId)
    ensures ReadLine(NextLine(RunIdHead() + runId + ("\"" + "," + NumberHead(Seq) + more) + "\n" + rest).0)
         == Undecodable
  {
    RunIdHeadSolid();
    SeqHeadSolid();
    hide RunIdHead, NumberHead, Loads, Strip, NextLine, Inside;
    var h, q := RunIdHead(), "\"" + "," + NumberHead(Seq);
    var text := h + runId + (q + more) + "\n" + rest;
    if HoldsNewline(runId) {
      var c := StrippedLine(h, runId, q + more, rest);
      assert Lacks(c, '"');
      UnterminatedText(RunId, c);
      RunIdBad(c);
    } else {
      var g := h + runId + q;
      assert !HoldsNewline(g);
      assert g[|g| - 1] == ':' && g[0] == '{';
      var c := StrippedLine(g, more, "", rest);
      assert g + more + "" + "\n" + rest == text;
      RunIdBreaks(runId, c);
      assert g + c == h + runId + (q + c);
    }
  }

  // ---------- a target that does not stand between quotes, or a body that is cut ----------

  lemma TargetHeadIs()
    ensures TargetHead() == "\"" + KeyText(EventText.Args) + "\":{" + TextHead(Target)
  {
    hide KeyText;
  }

  lemma JoinArgs(a: string, t: string, x: string)
    ensures (a + t) + x == a + (t + x)
  {
  }

  /** A process line is legible members and then its args. */
  lemma ProcessHeadOpens(s: Stamp, name: string, x: string)
    ensures ProcessHead(s, name) + x ==
            "{" + (PrintItems(Ones(HeaderLeaves(s, s.pid, "PROCESS", name, "instant"))) + ","
                   + ("\"" + KeyText(EventText.Args) + "\":{" + (TextHead(Target) + x)))
  {
    var hl := HeaderLeaves(s, s.pid, "PROCESS", name, "instant");
    var a := "\"" + KeyText(EventText.Args) + "\":{";
    OnesPrint(hl);
    TargetHeadIs();
    JoinHead(PrintLeaves(hl), TargetHead(), x);
    JoinArgs(a, TextHead(Target), x);
    hide HeaderLeaves, TextHead, PrintItems, PrintLeaves, KeyText, TargetHead;
  }

  lemma ArgsStart(y: string)
    ensures var next := "\"" + KeyText(EventText.Args) + "\":{" + y; next != "" && next[0] == '"'
  {
    hide KeyText;
  }

  /** A process line up to its target, and then members that do not read. */
  lemma TargetBad(s: Stamp, name: string, x: string)
    requires Inside(s.runId) && Plain(name) && ReadMembers(TextHead(Target) + x) == None
    ensures Loads(ProcessHead(s, name) + x) == None
  {
    hide Inside, Plain, ReadMembers, HeaderLeaves, TextHead, PrintItems, Loads, ProcessHead, KeyText, ItemsLegible;
    var hl := HeaderLeaves(s, s.pid, "PROCESS", name, "instant");
    LiteralsPlain();
    HeaderLegible(s, s.pid, "PROCESS", name, "instant");
    HeaderNonempty(s, s.pid, "PROCESS", name, "instant");
    OnesLegible(hl);
    HeadStarts(Target, x);
    GroupOfBad(EventText.Args, TextHead(Target) + x);
    ArgsStart(TextHead(Target) + x);
    BadObject(Ones(hl), "\"" + KeyText(EventText.Args) + "\":{" + (TextHead(Target) + x));
    ProcessHeadOpens(s, name, x);
  }

  lemma ProcessHeadSolid(s: Stamp, name: string)
    requires Inside(s.runId) && Plain(name)
    ensures var h := ProcessHead(s, name); h != "" && !HoldsNewline(h) && h[0] == '{' && h[|h| - 1] == '"'
  {
    hide Inside, Plain;
    InsideVisible(s.runId);
    PlainVisible(name);
    var e := Process(s, name, "");
    ProcessBodyPrints(e);
    BodyOnly(e, Visible);
    hide FullBody, ProcessHead;
    VisibleHasNoNewline(FullBody(e));
    ProcessHeadEnds(s, name);
    assert FullBody(e) == ProcessHead(s, name) + "\"}" by {
      assert ProcessHead(s, name) + "" == ProcessHead(s, name);
    }
    assert forall c :: c in ProcessHead(s, name) ==> c in ProcessHead(s, name) + "\"}";
  }

  lemma ProcessHeadEnds(s: Stamp, name: string)
    ensures var h := ProcessHead(s, name); h != "" && h[0] == '{' && h[|h| - 1] == '"'
  {
    hide PrintLeaves, HeaderLeaves, KeyText;
  }

  /** The chain fields, from their comma to the brace. */
  function ChainText(prevHash: string, eventHash: string): string {
    "," + PrintItems(ChainItems(prevHash, eventHash)) + "}"
  }

  lemma ChainOpens(prevHash: string, eventHash: string) returns (more: string)
    ensures ChainText(prevHash, eventHash) == "," + ("\"" + (KeyText(PrevHash) + ("\":\"" + more)))
    ensures ChainText(prevHash, eventHash)[|ChainText(prevHash, eventHash)| - 1] == '}'
  {
    var p, q := Text(PrevHash, prevHash), Text(EventHash, eventHash);
    PrintTwo(p, q);
    TextPrint(PrevHash, prevHash);
    TextHeadIs(PrevHash);
    more := prevHash + "\"" + "," + q.Print() + "}";
    hide PrintItems, Leaf.Print, TextHead, KeyText;
    JoinChain(KeyText(PrevHash) + "\":\"", prevHash, q.Print());
    assert KeyText(PrevHash) + "\":\"" + more == KeyText(PrevHash) + ("\":\"" + more);
  }

  lemma JoinChain(k: string, raw: string, q: string)
    ensures "," + (("\"" + k) + raw + "\"" + "," + q) + "}" == "," + ("\"" + (k + (raw + "\"" + "," + q + "}")))
  {
  }

  /** The text of a process line from its target on: the body may be cut in the target, or between the
      quote and the brace that end it. */
  datatype Ending = Full | NoBrace | InTarget(part: string) {
    function Shown(target: string): string { if InTarget? then part else target }

    function Close(): string { if Full? then "\"}" else if NoBrace? then "\"" else "" }
  }

  lemma UnterminatedTarget(s: Stamp, name: string, c: string)
    requires Inside(s.runId) && Plain(name) && Lacks(c, '"')
    ensures Loads(ProcessHead(s, name) + c) == None
  {
    hide ReadMembers, Loads, ProcessHead, TextHead, Inside, Plain;
    UnterminatedText(Target, c);
    TargetBad(s, name, c);
  }

  /** A text that is broken, then a quote, some legible text, and the quote of prev_hash. */
  lemma BrokenTarget(s: Stamp, name: string, t: string, c: string, chain: string)
    requires Inside(s.runId) && Plain(name) && Lacks(t, '"') && !Inside(t) && Inside(c)
    ensures Loads(ProcessHead(s, name) + (t + "\"" + (c + ("\"" + (KeyText(PrevHash) + chain))))) == None
  {
    var rest := c + ("\"" + (KeyText(PrevHash) + chain));
    TextHeadIs(Target);
    SwallowsTo(c, PrevHash, chain);
    hide KeyText, TextHead, ReadString, ReadMembers, Inside, ProcessHead, Loads, Plain;
    BrokenLeaf(Target, t, rest);
    assert TextHead(Target) + (t + "\"" + rest) == "\"" + KeyText(Target) + "\":\"" + t + "\"" + rest;
    TargetBad(s, name, t + "\"" + rest);
  }

  lemma JoinTextHead(k: string, t: string, rest: string)
    ensures ("\"" + k + "\":\"") + (t + "\"" + rest) == "\"" + k + "\":\"" + t + "\"" + rest
  {
  }

  lemma ColonSpoils(more: string)
    ensures Spoils(":\"" + more)
  {
  }

  /** A cut target, the comma of the chain, and its first quote taken for the target's end. */
  lemma CutTarget(s: Stamp, name: string, t: string, more: string)
    requires Inside(s.runId) && Plain(name) && Lacks(t, '"')
    ensures Loads(ProcessHead(s, name) + (t + "\"" + (KeyText(PrevHash) + ("\":\"" + more)))) == None
  {
    var rest := KeyText(PrevHash) + ("\":\"" + more);
    TextHeadIs(Target);
    KeyTextWord(PrevHash);
    hide KeyText, TextHead, ReadString, ReadMembers, InsideValue, ProcessHead, Loads, Plain, Inside;
    if Inside(t) {
      assert rest[0] == KeyText(PrevHash)[0];
      SpoiledLeaf(Target, t, rest);
    } else {
      KeyReads(PrevHash, ":\"" + more);
      assert rest == KeyText(PrevHash) + "\"" + (":\"" + more);
      ColonSpoils(more);
      hide Spoils;
      BrokenLeaf(Target, t, rest);
    }
    JoinTextHead(KeyText(Target), t, rest);
    TargetBad(s, name, t + "\"" + rest);
  }

  lemma JoinEnd(h: string, k: string, t: string, p: string, q: string)
    ensures h + (t + "\"" + ("," + (p + "," + q) + "}")) == h + (t + "\"") + "," + (p + "," + q) + "}"
    ensures (k + t + "\"") + "," + (p + "," + q) + "}" + "" == k + (t + "\"" + ("," + (p + "," + q) + "}"))
  {
  }

  lemma BracelessInner(target: string, prevHash: string, eventHash: string)
    ensures TextHead(Target) + (target + "\"" + ChainText(prevHash, eventHash))
         == PrintLeaves([Text(Target, target), Text(PrevHash, prevHash), Text(EventHash, eventHash)]) + "}" + ""
  {
    var t, p, q := Text(Target, target), Text(PrevHash, prevHash), Text(EventHash, eventHash);
    LeavesConcat([t, p], q);
    LeavesConcat([t], p);
    LeafAlone(t);
    assert [t, p] + [q] == [t, p, q] && [t] + [p] == [t, p];
    PrintTwo(p, q);
    TextPrint(Target, target);
    JoinEnd("", TextHead(Target), target, p.Print(), q.Print());
    JoinLeaves(TextHead(Target) + target + "\"", p.Print(), q.Print());
    hide Leaf.Print, PrintLeaves, PrintItems, TextHead;
  }

  lemma JoinLeaves(t: string, p: string, q: string)
    ensures t + "," + p + "," + q + "}" + "" == t + "," + (p + "," + q) + "}" + ""
  {
  }

  /** Without its brace, args takes in the chain fields and the line's brace, and the line has none left. */
  lemma BracelessTarget(s: Stamp, name: string, target: string, prevHash: string, eventHash: string)
    requires Inside(s.runId) && Plain(name) && Inside(target) && Inside(prevHash) && Inside(eventHash)
    ensures Loads(ProcessHead(s, name) + (target + "\"" + ChainText(prevHash, eventHash))) == None
  {
    hide Inside, Plain, KeyText, ReadMembers, Loads, ProcessHead, TextHead, Meanings, PrintLeaves, ChainText;
    LeavesRead([Text(Target, target), Text(PrevHash, prevHash), Text(EventHash, eventHash)], "");
    BracelessInner(target, prevHash, eventHash);
    ArgsSwallow(s, name, target + "\"" + ChainText(prevHash, eventHash));
  }

  lemma ArgsSwallow(s: Stamp, name: string, x: string)
    requires Inside(s.runId) && Plain(name)
    requires ReadMembers(TextHead(Target) + x).Some? && ReadMembers(TextHead(Target) + x).value.rest == ""
    ensures Loads(ProcessHead(s, name) + x) == None
  {
    hide Inside, Plain, ReadMembers, HeaderLeaves, TextHead, PrintItems, Loads, ProcessHead, KeyText, ItemsLegible;
    hide ReadMember;
    var hl := HeaderLeaves(s, s.pid, "PROCESS", name, "instant");
    var inner := TextHead(Target) + x;
    var next := "\"" + KeyText(EventText.Args) + "\":{" + inner;
    LiteralsPlain();
    HeaderLegible(s, s.pid, "PROCESS", name, "instant");
    HeaderNonempty(s, s.pid, "PROCESS", name, "instant");
    OnesLegible(hl);
    HeadStarts(Target, x);
    GroupReads(inner);
    MemberReads(EventText.Args, "{" + inner);
    assert next == "\"" + KeyText(EventText.Args) + "\":" + ("{" + inner);
    EndsEarly(next);
    ArgsStart(inner);
    BadObject(Ones(hl), next);
    ProcessHeadOpens(s, name, x);
  }

  lemma EndsEarly(t: string)
    requires ReadMember(t).Some? && ReadMember(t).value.rest == ""
    ensures ReadMembers(t) == None
  {
    hide ReadMember;
    assert SkipSpace("") == "";
  }

  // ---------- the lines of a process event ----------

  /** How the body of a process event ends, if its buffer holds it up to the target. */
  lemma ProcessEnds(e: Event) returns (end: Ending)
    requires e.Process? && |ProcessHead(e.stamp, e.name)| < 4096
    ensures Body(e) == ProcessHead(e.stamp, e.name) + end.Shown(e.target) + end.Close()
    ensures (end.Full? <==> Fits(e)) && (end.InTarget? ==> end.part <= e.target)
  {
    ProcessBodyPrints(e);
    BodyIsFront(e);
    hide FullBody, ProcessHead, Body;
    var h := ProcessHead(e.stamp, e.name);
    var full := h + e.target + "\"}";
    var room := 4095 - |h|;
    if |full| < 4096 {
      end := Full;
    } else if room <= |e.target| {
      end := InTarget(e.target[..room]);
      assert full[..4095] == h + e.target[..room] + "";
    } else {
      end := NoBrace;
      assert full[..4095] == h + e.target + "\"";
    }
  }

  lemma OwnLineText(e: Event, prevHash: string, eventHash: string)
    ensures PrintedLine(Own(e, prevHash, eventHash)) == Body(e) + ChainText(prevHash, eventHash) + "\n"
  {
    ChainPrints(prevHash, eventHash);
    hide Body, RenderAll, PrintItems;
  }

  lemma ChainSolid(prevHash: string, eventHash: string)
    requires IsHex(prevHash) && IsHex(eventHash)
    ensures var z := ChainText(prevHash, eventHash); z != "" && !HoldsNewline(z) && !IsSpaceChar(z[|z| - 1])
  {
    HexText(prevHash);
    HexText(eventHash);
    ChainPrints(prevHash, eventHash);
    RenderOnly(ChainFields(prevHash, eventHash), Visible);
    hide RenderAll, PrintItems;
    VisibleHasNoNewline(RenderAll(ChainFields(prevHash, eventHash)));
  }

  lemma JoinLine(h: string, y: string, c: string, z: string, rest: string)
    ensures h + y + c + z + "\n" + rest == h + y + (c + z) + "\n" + rest
    ensures y + ("" + z) == y + z
  {
    assert "" + z == z;
  }

  lemma JoinCut(part: string, q: string)
    ensures part + ("" + ("," + ("\"" + q))) == (part + ",") + "\"" + q
  {
  }

  lemma JoinBroken(t: string, q: string)
    ensures t + ("\"}" + ("," + q)) == t + "\"" + ("}," + q) && t + ("\"" + ("," + q)) == t + "\"" + ("," + q)
  {
  }

  lemma CutBreaks(s: Stamp, name: string, prevHash: string, eventHash: string, part: string)
    requires Inside(s.runId) && Plain(name) && Lacks(part, '"')
    ensures Loads(ProcessHead(s, name) + (part + ("" + ChainText(prevHash, eventHash)))) == None
  {
    var more := ChainOpens(prevHash, eventHash);
    hide Inside, Plain, Loads, ProcessHead, ChainText, KeyText;
    CutTarget(s, name, part + ",", more);
    JoinCut(part, KeyText(PrevHash) + ("\":\"" + more));
  }

  lemma BrokenBreaks(e: Event, prevHash: string, eventHash: string)
    requires e.Process? && Inside(e.stamp.runId) && Plain(e.name) && Lacks(e.target, '"') && !Inside(e.target)
    ensures Loads(ProcessHead(e.stamp, e.name) + (e.target + ("\"}" + ChainText(prevHash, eventHash)))) == None
    ensures Loads(ProcessHead(e.stamp, e.name) + (e.target + ("\"" + ChainText(prevHash, eventHash)))) == None
  {
    var more := ChainOpens(prevHash, eventHash);
    CommaInside();
    hide Inside, Plain, Loads, ProcessHead, ChainText, KeyText;
    var chain := "\":\"" + more;
    BrokenTarget(e.stamp, e.name, e.target, "},", chain);
    BrokenTarget(e.stamp, e.name, e.target, ",", chain);
    JoinBroken(e.target, "\"" + (KeyText(PrevHash) + chain));
  }

  lemma HexInside(s: string)
    requires IsHex(s)
    ensures Inside(s)
  {
    hide Inside, InsideValue;
    HexText(s);
    PlainInside(s);
  }

  /** The whole line is read, and it ends the wrong way. */
  lemma EndingBreaks(e: Event, prevHash: string, eventHash: string, end: Ending)
    requires e.Process? && Inside(e.stamp.runId) && Plain(e.name) && Lacks(e.target, '"')
    requires IsHex(prevHash) && IsHex(eventHash) && (end.InTarget? ==> end.part <= e.target)
    requires end.Full? ==> !Inside(e.target)
    ensures Loads(ProcessHead(e.stamp, e.name)
                  + (end.Shown(e.target) + (end.Close() + ChainText(prevHash, eventHash)))) == None
  {
    hide Inside, InsideValue, Plain, Loads, ProcessHead, ChainText, IsHex;
    HexInside(prevHash);
    HexInside(eventHash);
    if end.InTarget? {
      assert forall c :: c in end.part ==> c in e.target;
      CutBreaks(e.stamp, e.name, prevHash, eventHash, end.part);
    } else if Inside(e.target) {
      BracelessTarget(e.stamp, e.name, e.target, prevHash, eventHash);
      assert e.target + ("\"" + ChainText(prevHash, eventHash)) == e.target + "\"" + ChainText(prevHash, eventHash);
    } else {
      BrokenBreaks(e, prevHash, eventHash);
    }
  }

  /** What is read of a process line up to its target and on, when that is no object. */
  lemma SpoiledText(h: string, y: string, z: string, rest: string, names: string)
    requires h != "" && !HoldsNewline(h) && !IsSpaceChar(h[0]) && !IsSpaceChar(h[|h| - 1])
    requires z != "" && !HoldsNewline(z) && !IsSpaceChar(z[|z| - 1])
    requires y <= names && Lacks(names, '"')
    requires Loads(h + (y + z)) == None && forall c :: Lacks(c, '"') ==> Loads(h + c) == None
    ensures ReadLine(NextLine(h + y + z + "\n" + rest).0) == Undecodable
  {
    hide Loads, Strip, NextLine;
    var c := StrippedLine(h, y, z, rest);
    if HoldsNewline(y) {
      assert forall x :: x in c ==> x in y;
      assert forall x :: x in y ==> x in names;
      assert Lacks(c, '"');
    } else {
      WholeHasNone(y, z);
    }
  }

  lemma CloseSolid(end: Ending, chain: string)
    requires chain != "" && !HoldsNewline(chain) && !IsSpaceChar(chain[|chain| - 1])
    ensures var z := end.Close() + chain; z != "" && !HoldsNewline(z) && !IsSpaceChar(z[|z| - 1])
  {
    WholeHasNone(end.Close(), chain);
    assert (end.Close() + chain)[|end.Close() + chain| - 1] == chain[|chain| - 1];
  }

  /** A process line with a legible run_id whose target is not legible, or whose body is cut. */
  lemma TargetSpoilsLine(e: Event, prevHash: string, eventHash: string, rest: string)
    requires e.Process? && Inside(e.stamp.runId) && Plain(e.name) && Lacks(e.target, '"')
    requires |ProcessHead(e.stamp, e.name)| < 4096 && IsHex(prevHash) && IsHex(eventHash)
    requires !(Fits(e) && Inside(e.target))
    ensures ReadLine(NextLine(PrintedLine(Own(e, prevHash, eventHash)) + rest).0) == Undecodable
  {
    var end := ProcessEnds(e);
    OwnLineText(e, prevHash, eventHash);
    ChainSolid(prevHash, eventHash);
    ProcessHeadSolid(e.stamp, e.name);
    hide Body, ProcessHead, ChainText, Loads, ReadLine, NextLine, Inside, Plain, Fits, PrintedLine;
    var h, y, chain := ProcessHead(e.stamp, e.name), end.Shown(e.target), ChainText(prevHash, eventHash);
    CloseSolid(end, chain);
    EndingBreaks(e, prevHash, eventHash, end);
    forall c | Lacks(c, '"')
      ensures Loads(h + c) == None
    {
      UnterminatedTarget(e.stamp, e.name, c);
    }
    JoinLine(h, y, end.Close(), chain, rest);
    SpoiledText(h, y, end.Close() + chain, rest, e.target);
  }

  // ---------- exactly when an own line decodes ----------

  lemma ProcessOpens(e: Event, prevHash: string, eventHash: string) returns (more: string)
    requires e.Process? && |ProcessHead(e.stamp, e.name)| < 4096
    ensures Body(e) + ChainText(prevHash, eventHash)
         == RunIdHead() + e.stamp.runId + ("\"" + "," + NumberHead(Seq) + more)
  {
    var end := ProcessEnds(e);
    var m := HeaderOpens(e.stamp, e.stamp.pid, "PROCESS", e.name, "instant");
    var hp := "{" + PrintLeaves(HeaderLeaves(e.stamp, e.stamp.pid, "PROCESS", e.name, "instant"));
    assert ProcessHead(e.stamp, e.name) == hp + "," + TargetHead();
    hide Body, HeaderLeaves, PrintLeaves, TargetHead, ChainText, RunIdHead, NumberHead, ProcessHead;
    var tail := "," + TargetHead() + end.Shown(e.target) + end.Close() + ChainText(prevHash, eventHash);
    more := m + tail;
    JoinOpened(RunIdHead() + e.stamp.runId, "\"" + "," + NumberHead(Seq), m, tail);
    JoinTail(hp, TargetHead(), end.Shown(e.target), end.Close(), ChainText(prevHash, eventHash));
  }

  lemma SyscallOpens(e: Event, prevHash: string, eventHash: string) returns (more: string)
    requires e.Syscall? && Fits(e)
    ensures Body(e) + ChainText(prevHash, eventHash)
         == RunIdHead() + e.stamp.runId + ("\"" + "," + NumberHead(Seq) + more)
  {
    hide Body, FullBody, HeaderLeaves, PrintLeaves, ChainText, RunIdHead, NumberHead, SyscallName;
    var m := HeaderOpens(e.stamp, e.stamp.pid, "SYSCALL", SyscallName(e.entry.no), "exit");
    var body := SyscallTail(e);
    var hp := "{" + PrintLeaves(HeaderLeaves(e.stamp, e.stamp.pid, "SYSCALL", SyscallName(e.entry.no), "exit"));
    more := m + (body + ChainText(prevHash, eventHash));
    JoinArgs(hp, body, ChainText(prevHash, eventHash));
    JoinOpened(RunIdHead() + e.stamp.runId, "\"" + "," + NumberHead(Seq), m, body + ChainText(prevHash, eventHash));
  }

  /** A syscall line that is printed whole, or a process line that shows its run_id. */
  lemma OwnOpens(e: Event, prevHash: string, eventHash: string) returns (more: string)
    requires if e.Process? then |ProcessHead(e.stamp, e.name)| < 4096 else Fits(e)
    ensures PrintedLine(Own(e, prevHash, eventHash))
         == RunIdHead() + e.stamp.runId + ("\"" + "," + NumberHead(Seq) + more) + "\n"
  {
    OwnLineText(e, prevHash, eventHash);
    hide Body, ChainText, RunIdHead, NumberHead, Fits, ProcessHead;
    if e.Process? {
      more := ProcessOpens(e, prevHash, eventHash);
    } else {
      more := SyscallOpens(e, prevHash, eventHash);
    }
  }

  lemma JoinOpened(h: string, q: string, m: string, tail: string)
    ensures h + (q + m) + tail == h + (q + (m + tail))
  {
  }

  lemma JoinTail(h: string, t: string, y: string, c: string, z: string)
    ensures (h + "," + t) + y + c + z == h + ("," + t + y + c + z)
  {
  }

  lemma JoinBody(h: string, a: string, r: string, p: string)
    ensures "{" + (h + "," + a + "," + r) == ("{" + h) + ("," + a + "," + r)
    ensures "{" + (h + "," + a + "," + r + "," + p) == ("{" + h) + ("," + a + "," + r + "," + p)
  {
  }

  /** What follows the header in a syscall body. */
  lemma SyscallTail(e: Event) returns (tail: string)
    requires e.Syscall?
    ensures FullBody(e) ==
            ("{" + PrintLeaves(HeaderLeaves(e.stamp, e.stamp.pid, "SYSCALL", SyscallName(e.entry.no), "exit"))) + tail
  {
    SyscallBodyPrints(e);
    SyscallItemsPrint(e);
    hide FullBody, PrintLeaves, PrintItems, HeaderLeaves, SyscallName, Item.Print, CallLeaves, ErrnoOf, PayloadLeaves;
    hide EventItems;
    var hp := PrintLeaves(HeaderLeaves(e.stamp, e.stamp.pid, "SYSCALL", SyscallName(e.entry.no), "exit"));
    var a, r := Group(EventText.Args, CallLeaves(e.entry)).Print(), PrintItems(ResultItems(e.ret, ErrnoOf(e.ret)));
    hide ResultItems;
    if e.payload.None? {
      tail := "," + a + "," + r;
      JoinBody(hp, a, r, "");
    } else {
      var p := Group(PayloadRefKey, PayloadLeaves(e.payload.value)).Print();
      tail := "," + a + "," + r + "," + p;
      JoinBody(hp, a, r, p);
    }
  }

  /** An own line with a quote-free run_id and target that cannot both stand between quotes, or whose body
      is cut, does not decode. */
  lemma OwnLineSpoils(e: Event, prevHash: string, eventHash: string, rest: string)
    requires Lacks(e.stamp.runId, '"') && IsHex(prevHash) && IsHex(eventHash)
    requires e.Process? ==> Plain(e.name) && Lacks(e.target, '"') && |ProcessHead(e.stamp, e.name)| < 4096
    requires e.Syscall? ==> Fits(e)
    requires !(Inside(e.stamp.runId) && (e.Process? ==> Inside(e.target) && Fits(e)))
    ensures ReadLine(NextLine(PrintedLine(Own(e, prevHash, eventHash)) + rest).0) == Undecodable
  {
    hide ReadLine, NextLine, PrintedLine, Inside, Fits, ProcessHead, Plain, IsHex;
    if !Inside(e.stamp.runId) {
      var more := OwnOpens(e, prevHash, eventHash);
      hide RunIdHead, NumberHead;
      RunIdSpoilsLine(e.stamp.runId, more, rest);
    } else {
      TargetSpoilsLine(e, prevHash, eventHash, rest);
    }
  }

  /** An own line with a quote-free run_id and target decodes exactly when both can stand between quotes
      and the body is printed whole. */
  lemma OwnLineDecodes(e: Event, prevHash: string, eventHash: string, rest: string)
    requires Lacks(e.stamp.runId, '"') && IsHex(prevHash) && IsHex(eventHash) && EventUtf8(e)
    requires e.Process? ==> Plain(e.name) && Lacks(e.target, '"') && |ProcessHead(e.stamp, e.name)| < 4096
    requires e.Syscall? ==> Fits(e) && (e.payload.Some? ==> Plain(e.payload.value.sha256))
    ensures var r := ReadLine(NextLine(PrintedLine(Own(e, prevHash, eventHash)) + rest).0);
            if Inside(e.stamp.runId) && (e.Process? ==> Inside(e.target) && Fits(e))
            then r == Decoded(ViewEvent(e)) else r == Undecodable
  {
    hide ReadLine, NextLine, PrintedLine, Inside, Fits, ProcessHead, Plain, ViewEvent, EventUtf8, IsHex;
    if Inside(e.stamp.runId) && (e.Process? ==> Inside(e.target) && Fits(e)) {
      assert Readable(Own(e, prevHash, eventHash));
      OwnReads(e, prevHash, eventHash, rest);
    } else {
      OwnLineSpoils(e, prevHash, eventHash, rest);
    }
  }

  // ---------- names with a quote in them ----------

  /** The text ends at its first bare quote, and what stands behind that is neither comma nor brace. */
  predicate QuoteBreaks(text: string, at: nat) {
    at < |text| && text[at] == '"' && Inside(text[..at]) && (at + 1 == |text| || Spoils(text[at + 1..]))
  }

  /** A text, its quote, and then nothing or what spoils the line. */
  lemma QuoteThenBad(k: Key, t: string, c: string)
    requires Inside(t) && (c == "" || Spoils(c))
    ensures ReadMembers(TextHead(k) + (t + "\"" + c)) == None
  {
    TextHeadIs(k);
    hide KeyText, TextHead, ReadMember, ReadMembers, ReadValue, Inside, InsideValue;
    if c == "" {
      StringReads(t, "");
      var v := "\"" + t + "\"" + "";
      MemberReads(k, v);
      assert TextHead(k) + (t + "\"" + "") == "\"" + KeyText(k) + "\":" + v;
      EndsEarly(TextHead(k) + (t + "\"" + ""));
    } else {
      SpoiledLeaf(k, t, c);
      JoinTextHead(KeyText(k), t, c);
    }
  }

  lemma JoinQuoted(h: string, t: string, u: string, q: string, rest: string)
    ensures h + (t + "\"" + u) + q + "\n" + rest == (h + t + "\"") + (u + q) + "" + "\n" + rest
  {
  }

  /** A solid head, a text that can stand between quotes and its quote are one again. */
  lemma QuotedSolid(h: string, t: string)
    requires h != "" && !HoldsNewline(h) && h[0] == '{' && Inside(t)
    ensures var g := h + t + "\""; g != "" && !HoldsNewline(g) && g[0] == '{' && g[|g| - 1] == '"'
  {
    InsideVisible(t);
    VisibleHasNoNewline(t);
    hide Inside;
  }

  lemma JoinHeadText(h: string, t: string, c: string)
    ensures (h + t + "\"") + c == h + (t + "\"" + c)
  {
  }

  lemma SameFirst(c: string, a: string, b: string)
    requires c <= a + b + "" && a + b != ""
    ensures c == "" || c[0] == (a + b)[0]
  {
    assert a + b + "" == a + b;
  }

  /** The part of the line that is read keeps the head and the quoted text, and the char behind it. */
  lemma QuotedLine(h: string, t: string, u: string, q: string, rest: string) returns (c: string)
    requires h != "" && !HoldsNewline(h) && h[0] == '{' && Inside(t) && u + q != ""
    ensures Strip(NextLine(h + (t + "\"" + u) + q + "\n" + rest).0) == h + (t + "\"" + c)
    ensures c == "" || c[0] == (u + q)[0]
  {
    QuotedSolid(h, t);
    JoinQuoted(h, t, u, q, rest);
    hide Strip, NextLine, Inside;
    c := StrippedLine(h + t + "\"", u + q, "", rest);
    JoinHeadText(h, t, c);
    SameFirst(c, u, q);
  }

  lemma SpoiledReads(line: string, text: string)
    requires Strip(line) == text && text != "" && Loads(text) == None
    ensures ReadLine(line) == Undecodable
  {
    hide Strip, Loads;
  }

  /** The char behind the quote that breaks a text, its own or the closing quote. */
  function Behind(text: string, at: nat): char { if at + 1 < |text| then text[at + 1] else '"' }

  lemma BreaksBehind(text: string, at: nat, c: string)
    requires QuoteBreaks(text, at) && (c == "" || c[0] == Behind(text, at))
    ensures Inside(text[..at]) && (c == "" || Spoils(c))
    ensures text == text[..at] + "\"" + text[at + 1..]
  {
    hide Inside;
  }

  /** A line whose run_id holds a quote that breaks it. */
  lemma QuotedRunIdSpoilsLine(runId: string, at: nat, more: string, rest: string)
    requires QuoteBreaks(runId, at)
    ensures ReadLine(NextLine(RunIdHead() + runId + ("\"" + "," + NumberHead(Seq) + more) + "\n" + rest).0)
         == Undecodable
  {
    var t, u, q := runId[..at], runId[at + 1..], "\"" + "," + NumberHead(Seq) + more;
    RunIdHeadSolid();
    assert (u + q)[0] == Behind(runId, at);
    BreaksBehind(runId, at, "");
    hide RunIdHead, NumberHead, Loads, Strip, NextLine, Inside, ReadMembers, TextHead, ReadLine, QuoteBreaks, Spoils;
    var c := QuotedLine(RunIdHead(), t, u, q, rest);
    BreaksBehind(runId, at, c);
    QuoteThenBad(RunId, t, c);
    RunIdBad(t + "\"" + c);
    SpoiledReads(NextLine(RunIdHead() + runId + q + "\n" + rest).0, RunIdHead() + (t + "\"" + c));
    hide *;
  }

  lemma JoinShown(h: string, t: string, u: string)
    ensures h + (t + "\"" + u) + "\"}" == h + (t + "\"" + (u + "\"}"))
  {
  }

  lemma CutShown(h: string, t: string, w: string, n: nat)
    requires |h| + |t| + 1 <= n <= |h + (t + "\"" + w)|
    ensures (h + (t + "\"" + w))[..n] == h + (t + "\"" + w[..n - |h| - |t| - 1])
  {
  }

  /** A printed process body shows the quote in its target and the char behind it. */
  lemma ProcessQuoteShown(e: Event, at: nat) returns (v: string)
    requires e.Process? && QuoteBreaks(e.target, at) && |ProcessHead(e.stamp, e.name)| + at + 2 < 4096
    ensures Body(e) == ProcessHead(e.stamp, e.name) + (e.target[..at] + "\"" + v)
    ensures v != "" && v[0] == Behind(e.target, at)
  {
    var h, t, u := ProcessHead(e.stamp, e.name), e.target[..at], e.target[at + 1..];
    var w := u + "\"}";
    assert w[0] == Behind(e.target, at);
    BreaksBehind(e.target, at, "");
    assert |t| == at;
    hide FullBody, ProcessHead, Body, QuoteBreaks, Behind;
    ProcessBodyPrints(e);
    BodyIsFront(e);
    JoinShown(h, t, u);
    if |FullBody(e)| < 4096 {
      v := w;
    } else {
      CutShown(h, t, w, 4095);
      v := w[..4095 - |h| - |t| - 1];
    }
  }

  /** A process line with a legible run_id whose target holds a quote that breaks it. */
  lemma QuotedTargetSpoilsLine(e: Event, at: nat, prevHash: string, eventHash: string, rest: string)
    requires e.Process? && Inside(e.stamp.runId) && Plain(e.name) && QuoteBreaks(e.target, at)
    requires |ProcessHead(e.stamp, e.name)| + at + 2 < 4096
    ensures ReadLine(NextLine(PrintedLine(Own(e, prevHash, eventHash)) + rest).0) == Undecodable
  {
    var head, t, chain := ProcessHead(e.stamp, e.name), e.target[..at], ChainText(prevHash, eventHash);
    hide Body, ProcessHead, ChainText, Loads, ReadLine, NextLine, Inside, Plain, PrintedLine, Strip, ReadMembers;
    hide TextHead, QuoteBreaks, Spoils, Behind, IsSpaceChar;
    var v := ProcessQuoteShown(e, at);
    OwnLineText(e, prevHash, eventHash);
    ProcessHeadSolid(e.stamp, e.name);
    BreaksBehind(e.target, at, "");
    assert (v + chain)[0] == v[0];
    var c := QuotedLine(head, t, v, chain, rest);
    BreaksBehind(e.target, at, c);
    QuoteThenBad(Target, t, c);
    TargetBad(e.stamp, e.name, t + "\"" + c);
    SpoiledReads(NextLine(PrintedLine(Own(e, prevHash, eventHash)) + rest).0, head + (t + "\"" + c));
    hide *;
  }
}
