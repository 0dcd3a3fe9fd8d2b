/** The text of a trace file read back by load_events: when a line decodes, and what the file gives. */
module TraceText {
  import opened CText
  import opened EventText
  import opened TraceEvent
  import opened TraceLog
  import opened HashChain
  import opened JsonText
  import opened Json
  import opened LineJson
  import opened EventJson
  import opened Verifier
  import opened TraceReader
  import opened EventDecode
  import opened TraceBounds
  import Hash

  // ---------- what the lines of a file say ----------

  /** One line; a dropped hook line is not there. */
  function ViewLine(l: Line): seq<JsonEvent> {
    match l
    case Own(e, _, _) => [ViewEvent(e)]
    case Hook(h) => if HookLine(h).Some? then [ViewHook(h)] else []
  }

  function View(lines: seq<Line>): seq<JsonEvent> {
    if lines == [] then [] else View(lines[..|lines| - 1]) + ViewLine(lines[|lines| - 1])
  }

  lemma ViewAppend(lines: seq<Line>, l: Line)
    ensures View(lines + [l]) == View(lines) + ViewLine(l)
  {
    hide ViewLine;
    assert (lines + [l])[..|lines|] == lines;
  }

  lemma {:induction false} ViewConcat(a: seq<Line>, b: seq<Line>)
    ensures View(a + b) == View(a) + View(b)
  {
    hide ViewLine;
    if b == [] {
      assert a + b == a && View(a) + [] == View(a);
    } else {
      var n := |b| - 1;
      ViewConcat(a, b[..n]);
      assert a + b == (a + b[..n]) + [b[n]];
      ViewAppend(a + b[..n], b[n]);
      assert View(b) == View(b[..n]) + ViewLine(b[n]);
      hide View;
    }
  }

  // ---------- lines that decode ----------

  predicate Visible(c: char) { c >= ' ' }

  /** The texts of the event are well-formed UTF-8. */
  predicate EventUtf8(e: Event) {
    && Utf8(e.stamp.runId)
    && (e.Process? ==> Utf8(e.name) && Utf8(e.target))
    && (e.Syscall? && e.payload.Some? ==> Utf8(e.payload.value.sha256))
  }

  predicate HookUtf8(h: HookEvent) { Utf8(h.runId) && Utf8(h.name) && Utf8(h.phase) && Utf8(h.objectId) }

  /** A line printed whole with texts that need no escaping: it decodes to what it says. */
  ghost predicate Readable(l: Line) {
    match l
    case Own(e, prevHash, eventHash) =>
      Fits(e) && EventLegible(e) && EventUtf8(e) && IsHex(prevHash) && IsHex(eventHash)
    case Hook(h) => HookLegible(h) && HookUtf8(h)
  }

  lemma HexText(s: string)
    requires IsHex(s)
    ensures Plain(s) && Utf8(s) && Only(s, Visible) && Lacks(s, '"')
  {
    AsciiUtf8(s);
  }

  lemma {:induction false} InsideVisible(s: string)
    requires Inside(s)
    ensures Only(s, Visible)
    decreases |s|
  {
    if s != "" {
      if s[0] == '\\' {
        InsideVisible(ReadEscape(s[1..]).value.rest);
        EscapeVisible(s[1..]);
      } else {
        InsideVisible(s[1..]);
      }
      assert s == [s[0]] + s[1..];
    }
  }

  lemma EscapeVisible(t: string)
    requires ReadEscape(t).Some? && Only(ReadEscape(t).value.rest, Visible)
    ensures Only(t, Visible)
  {
    hide Utf8Of;
    if t[0] == 'u' {
      UnicodeVisible(t[1..]);
      assert t == [t[0]] + t[1..];
    } else {
      assert t == [t[0]] + t[1..];
    }
  }

  lemma HexValueVisible(c: char)
    requires HexValue(c).Some?
    ensures Visible(c)
  {
  }

  lemma UnicodeVisible(t: string)
    requires ReadUnicode(t).Some? && Only(ReadUnicode(t).value.rest, Visible)
    ensures Only(t, Visible)
  {
    hide Utf8Of, HexValue;
    HexValueVisible(t[0]);
    HexValueVisible(t[1]);
    HexValueVisible(t[2]);
    HexValueVisible(t[3]);
    if ReadUnicode(t).value.rest == t[4..] {
      assert t == t[..4] + t[4..];
    } else {
      HexValueVisible(t[6]);
      HexValueVisible(t[7]);
      HexValueVisible(t[8]);
      HexValueVisible(t[9]);
      assert t == t[..10] + t[10..];
    }
  }

  lemma VisibleHasNoNewline(s: string)
    requires Only(s, Visible)
    ensures !HoldsNewline(s)
  {
  }

  lemma ObjectLoads(xs: seq<Item>)
    requires xs != [] && ItemsLegible(xs)
    ensures Loads("{" + PrintItems(xs) + "}") == Some(Object(ItemMeanings(xs)))
  {
    hide ReadMembers, ReadValue, ItemsLegible, PrintItems;
    var inner := PrintItems(xs) + "}" + "";
    assert inner == PrintItems(xs) + "}";
    ItemsRead(xs, "");
    ItemsStart(xs);
    GroupReads(inner);
    assert "{" + PrintItems(xs) + "}" == "{" + inner;
    assert SkipSpace("{" + inner) == "{" + inner && SkipSpace("") == "";
  }

  /** A printed object on a line of its own. */
  lemma ObjectLine(xs: seq<Item>, e: JsonEvent, rest: string)
    requires xs != [] && ItemsLegible(xs) && EventOf(Object(ItemMeanings(xs))) == Some(e)
    requires Only("{" + PrintItems(xs) + "}", Visible)
    ensures var t := "{" + PrintItems(xs) + "}";
            NextLine(t + "\n" + rest) == (t, rest) && ReadLine(t) == Decoded(e)
  {
    hide PrintItems, ItemsLegible, Loads, NextLine, EventOf, Strip;
    var t := "{" + PrintItems(xs) + "}";
    VisibleHasNoNewline(t);
    NextLineOf(t, rest);
    ObjectLoads(xs);
    StripBraces(t);
  }

  lemma OwnText(e: Event, prevHash: string, eventHash: string)
    requires Fits(e)
    ensures LineItems(e, prevHash, eventHash) != []
    ensures PrintedLine(Own(e, prevHash, eventHash)) == "{" + PrintItems(LineItems(e, prevHash, eventHash)) + "}" + "\n"
  {
    hide FullBody, PrintItems, EventItems, LineText;
    BodyPrints(e);
    LinePrints(EventItems(e), FullBody(e), prevHash, eventHash);
  }

  lemma HookText(h: HookEvent)
    requires HookLine(h).Some?
    ensures var hash := Hash.HexDigest(Bytes(HookBody(h)));
            && HookLineItems(h, hash) != []
            && PrintedLine(Hook(h)) == "{" + PrintItems(HookLineItems(h, hash)) + "}" + "\n"
  {
    hide HookBody, PrintItems, HookItems, LineText, Hash.HexDigest;
    HookBodyPrints(h);
    LinePrints(HookItems(h), HookBody(h), "hook", Hash.HexDigest(Bytes(HookBody(h))));
  }

  lemma LineVisible(body: string, prevHash: string, eventHash: string, t: string)
    requires LineText(body, prevHash, eventHash) == t + "\n"
    requires Only(body, Visible) && Only(prevHash, Visible) && Only(eventHash, Visible)
    ensures Only(t, Visible)
  {
    hide RenderAll;
    RenderOnly(ChainFields(prevHash, eventHash), Visible);
    var front := body + "," + RenderAll(ChainFields(prevHash, eventHash));
    assert front + "\n" == t + "\n";
    assert front == (front + "\n")[..|t|] == t;
  }

  lemma PlainVisible(s: string)
    requires Plain(s)
    ensures Only(s, Visible)
  {
  }

  lemma OwnReads(e: Event, prevHash: string, eventHash: string, rest: string)
    requires Readable(Own(e, prevHash, eventHash))
    ensures var t := "{" + PrintItems(LineItems(e, prevHash, eventHash)) + "}";
            && NextLine(PrintedLine(Own(e, prevHash, eventHash)) + rest) == (t, rest)
            && ReadLine(t) == Decoded(ViewEvent(e))
  {
    hide FullBody, PrintItems, LineText, EventOf, Inside, Plain, ItemsLegible, NextLine, ReadLine, LineItems;
    var xs := LineItems(e, prevHash, eventHash);
    var t := "{" + PrintItems(xs) + "}";
    OwnText(e, prevHash, eventHash);
    HexText(prevHash);
    HexText(eventHash);
    InsideVisible(e.stamp.runId);
    if e.Syscall? {
      SyscallDecodes(e, prevHash, eventHash);
      if e.payload.Some? {
        PlainVisible(e.payload.value.sha256);
      }
    } else {
      ProcessDecodes(e, prevHash, eventHash);
      InsideVisible(e.target);
      PlainVisible(e.name);
    }
    BodyOnly(e, Visible);
    LineVisible(FullBody(e), prevHash, eventHash, t);
    ObjectLine(xs, ViewEvent(e), rest);
  }

  lemma HookReads(h: HookEvent, rest: string)
    requires Readable(Hook(h)) && HookLine(h).Some?
    ensures var t := "{" + PrintItems(HookLineItems(h, Hash.HexDigest(Bytes(HookBody(h))))) + "}";
            NextLine(PrintedLine(Hook(h)) + rest) == (t, rest) && ReadLine(t) == Decoded(ViewHook(h))
  {
    hide PrintItems, LineText, EventOf, Inside, Plain, ItemsLegible, NextLine, ReadLine, HookLineItems, HookBody;
    hide Hash.HexDigest;
    var hash := Hash.HexDigest(Bytes(HookBody(h)));
    var xs := HookLineItems(h, hash);
    var t := "{" + PrintItems(xs) + "}";
    HookText(h);
    HexText(hash);
    HookWordPlain();
    PlainVisible("hook");
    InsideVisible(h.runId);
    PlainVisible(h.name);
    PlainVisible(h.phase);
    PlainVisible(h.objectId);
    HookDecodes(h, hash);
    HookBodyOnly(h, Visible);
    LineVisible(HookBody(h), "hook", hash, t);
    ObjectLine(xs, ViewHook(h), rest);
  }

  // ---------- a file is well-formed UTF-8 ----------

  lemma Utf8Both(a: string, b: string)
    requires Utf8(a) && Utf8(b)
    ensures Utf8(a + b)
  {
    Utf8Concat(a, b);
  }

  predicate Ascii(c: char) { c as nat < 0x80 }

  lemma AsciiText(s: string)
    requires Only(s, Ascii)
    ensures Utf8(s)
  {
    AsciiUtf8(s);
  }

  lemma KeyUtf8(k: Key, after: string)
    requires Only(after, Ascii)
    ensures Utf8("\"" + KeyText(k) + "\":" + after)
  {
    hide KeyText, Utf8;
    KeyTextWord(k);
    AsciiText("\"" + KeyText(k) + "\":" + after);
  }

  predicate LeafUtf8(l: Leaf) { l.Text? ==> Utf8(l.raw) }

  lemma LeafPrintUtf8(l: Leaf)
    requires LeafUtf8(l)
    ensures Utf8(l.Print())
  {
    hide KeyText, Utf8, SignedDecimal;
    if l.Text? {
      KeyUtf8(l.key, "\"");
      AsciiText("\"");
      Utf8Both("\"" + KeyText(l.key) + "\":" + "\"", l.raw);
      Utf8Both("\"" + KeyText(l.key) + "\":" + "\"" + l.raw, "\"");
      assert l.Print() == "\"" + KeyText(l.key) + "\":" + "\"" + l.raw + "\"";
    } else {
      NumberOnly(l.n, Ascii);
      KeyUtf8(l.key, SignedDecimal(l.n));
    }
  }

  lemma {:induction false} LeavesUtf8(ls: seq<Leaf>)
    requires forall i :: 0 <= i < |ls| ==> LeafUtf8(ls[i])
    ensures Utf8(PrintLeaves(ls))
  {
    hide Utf8, Leaf.Print, LeafUtf8;
    if ls == [] {
      AsciiText("");
    } else {
      LeafPrintUtf8(ls[0]);
      LeavesUtf8(ls[1..]);
      AsciiText(",");
      AsciiText("");
      Utf8Both(",", PrintLeaves(ls[1..]));
      Utf8Both(ls[0].Print(), if |ls| == 1 then "" else "," + PrintLeaves(ls[1..]));
    }
  }

  predicate ItemUtf8(x: Item) {
    if x.One? then LeafUtf8(x.leaf) else forall i :: 0 <= i < |x.leaves| ==> LeafUtf8(x.leaves[i])
  }

  lemma ItemPrintUtf8(x: Item)
    requires ItemUtf8(x)
    ensures Utf8(x.Print())
  {
    hide KeyText, Utf8, Leaf.Print, PrintLeaves, LeafUtf8;
    if x.One? {
      LeafPrintUtf8(x.leaf);
    } else {
      KeyUtf8(x.key, "{");
      LeavesUtf8(x.leaves);
      AsciiText("}");
      Utf8Both("\"" + KeyText(x.key) + "\":" + "{", PrintLeaves(x.leaves));
      Utf8Both("\"" + KeyText(x.key) + "\":" + "{" + PrintLeaves(x.leaves), "}");
      assert x.Print() == "\"" + KeyText(x.key) + "\":" + "{" + PrintLeaves(x.leaves) + "}";
    }
  }

  ghost predicate AllUtf8(xs: seq<Item>) { forall i :: 0 <= i < |xs| ==> ItemUtf8(xs[i]) }

  lemma {:induction false} ItemsUtf8(xs: seq<Item>)
    requires AllUtf8(xs)
    ensures Utf8(PrintItems(xs))
  {
    hide Utf8, Item.Print, ItemUtf8;
    if xs == [] {
      AsciiText("");
    } else {
      assert ItemUtf8(xs[0]);
      ItemPrintUtf8(xs[0]);
      ItemsUtf8(xs[1..]);
      AsciiText(",");
      AsciiText("");
      Utf8Both(",", PrintItems(xs[1..]));
      Utf8Both(xs[0].Print(), if |xs| == 1 then "" else "," + PrintItems(xs[1..]));
    }
  }

  lemma ObjectUtf8(xs: seq<Item>)
    requires AllUtf8(xs)
    ensures Utf8("{" + PrintItems(xs) + "}" + "\n")
  {
    hide Utf8, PrintItems, ItemUtf8;
    ItemsUtf8(xs);
    AsciiText("{");
    AsciiText("}");
    AsciiText("\n");
    Utf8Both("{", PrintItems(xs));
    Utf8Both("{" + PrintItems(xs), "}");
    Utf8Both("{" + PrintItems(xs) + "}", "\n");
  }

  lemma LiteralsUtf8()
    ensures Utf8("adr.trace.v1") && Utf8("PROCESS") && Utf8("SYSCALL") && Utf8("SYNC") && Utf8("hook")
    ensures Utf8("instant") && Utf8("exit") && Utf8("payload.bin") && Utf8("raw")
  {
    hide Utf8;
    AsciiText("adr.trace.v1");
    AsciiText("PROCESS");
    AsciiText("SYSCALL");
    AsciiText("SYNC");
    AsciiText("hook");
    AsciiText("instant");
    AsciiText("exit");
    AsciiText("payload.bin");
    AsciiText("raw");
  }

  lemma SyscallNameUtf8(no: int)
    ensures Utf8(SyscallName(no))
  {
    hide Utf8, SignedDecimal;
    NameOnly(no, Ascii);
    hide SyscallName;
    AsciiText(SyscallName(no));
  }

  lemma HeaderUtf8(s: Stamp, tid: int, etype: string, name: string, phase: string)
    requires Utf8(s.runId) && Utf8(etype) && Utf8(name) && Utf8(phase)
    ensures AllUtf8(Ones(HeaderLeaves(s, tid, etype, name, phase)))
  {
    hide Utf8;
    LiteralsUtf8();
  }

  lemma Utf8Items(xs: seq<Item>, ys: seq<Item>)
    requires AllUtf8(xs) && AllUtf8(ys)
    ensures AllUtf8(xs + ys)
  {
    hide ItemUtf8;
  }

  lemma EventItemsUtf8(e: Event)
    requires EventUtf8(e)
    ensures AllUtf8(EventItems(e))
  {
    hide Utf8, HeaderLeaves, SyscallName, ErrnoOf;
    LiteralsUtf8();
    if e.Syscall? {
      SyscallNameUtf8(e.entry.no);
      HeaderUtf8(e.stamp, e.stamp.pid, "SYSCALL", SyscallName(e.entry.no), "exit");
    } else {
      HeaderUtf8(e.stamp, e.stamp.pid, "PROCESS", e.name, "instant");
    }
  }

  lemma HookItemsUtf8(h: HookEvent)
    requires HookUtf8(h)
    ensures AllUtf8(HookItems(h))
  {
    hide Utf8, HeaderLeaves;
    LiteralsUtf8();
    HeaderUtf8(HookStamp(h), h.tid, "SYNC", h.name, h.phase);
    var hs := Ones(HeaderLeaves(HookStamp(h), h.tid, "SYNC", h.name, h.phase));
    assert Ones(HookLeaves(h)) == hs + [One(Text(ObjectId, h.objectId))];
  }

  lemma ChainItemsUtf8(prevHash: string, eventHash: string)
    requires Utf8(prevHash) && Utf8(eventHash)
    ensures AllUtf8(ChainItems(prevHash, eventHash))
  {
    hide Utf8;
  }

  lemma ReadableUtf8(l: Line)
    requires Readable(l)
    ensures Utf8(PrintedLine(l))
  {
    hide Utf8, FullBody, HookBody, LineText, PrintItems, Inside, Plain, EventUtf8, HookUtf8, AllUtf8, HookLine;
    hide EventItems, HookItems, ChainItems, EventLegible, HookLegible, Fits;
    match l
    case Own(e, prevHash, eventHash) =>
      HexText(prevHash);
      HexText(eventHash);
      EventItemsUtf8(e);
      ChainItemsUtf8(prevHash, eventHash);
      Utf8Items(EventItems(e), ChainItems(prevHash, eventHash));
      ObjectUtf8(LineItems(e, prevHash, eventHash));
      OwnText(e, prevHash, eventHash);
    case Hook(h) =>
      if HookLine(h).Some? {
        var hash := Hash.HexDigest(Bytes(HookBody(h)));
        HookHashUtf8(h);
        LiteralsUtf8();
        HookItemsUtf8(h);
        ChainItemsUtf8("hook", hash);
        Utf8Items(HookItems(h), ChainItems("hook", hash));
        ObjectUtf8(HookLineItems(h, hash));
        HookText(h);
      } else {
        AsciiText("");
      }
  }

  lemma HookHashUtf8(h: HookEvent)
    ensures Utf8(Hash.HexDigest(Bytes(HookBody(h))))
  {
    hide HookBody, Utf8;
    var hash := Hash.HexDigest(Bytes(HookBody(h)));
    assert IsHex(hash);
    hide Hash.HexDigest;
    HexText(hash);
  }

  // ---------- a readable file gives what its lines say ----------

  lemma OneLineReads(l: Line, rest: string, lineNo: nat)
    requires Readable(l) && (l.Hook? ==> HookLine(l.hook).Some?)
    ensures ReadTrace(PrintedLine(l) + rest, lineNo) == Preceded(ViewLine(l)[0], ReadTrace(rest, lineNo + 1))
  {
    hide FullBody, PrintItems, LineItems, HookLineItems, NextLine, ReadLine, Readable, Hash.HexDigest, HookBody;
    NotEmpty(l);
    if l.Own? {
      OwnReads(l.event, l.prevHash, l.eventHash, rest);
    } else {
      HookReads(l.hook, rest);
    }
  }

  lemma NotEmpty(l: Line)
    requires l.Hook? ==> HookLine(l.hook).Some?
    ensures PrintedLine(l) != ""
  {
    hide RenderAll, HookBody, FullBody, Hash.HexDigest;
  }

  /** load_events of a readable file: every line, in order, as what it says. */
  lemma {:induction false} ReadOfFile(lines: seq<Line>, lineNo: nat)
    requires forall i :: 0 <= i < |lines| ==> Readable(lines[i])
    ensures ReadTrace(FileText(lines), lineNo) == Some(Trace(View(lines), None))
  {
    hide Readable, PrintedLine, ViewEvent, ViewHook, View, HookLine;
    if lines == [] {
      NothingViewed();
    } else {
      var rest := FileText(lines[1..]);
      assert Readable(lines[0]);
      assert lines == [lines[0]] + lines[1..];
      ViewConcat([lines[0]], lines[1..]);
      ViewOne(lines[0]);
      if lines[0].Hook? && HookLine(lines[0].hook).None? {
        DroppedLine(lines[0]);
        assert PrintedLine(lines[0]) + rest == rest;
        ReadOfFile(lines[1..], lineNo);
        assert [] + View(lines[1..]) == View(lines[1..]);
      } else {
        OneLineReads(lines[0], rest, lineNo);
        ReadOfFile(lines[1..], lineNo + 1);
      }
    }
  }

  lemma NothingViewed()
    ensures View([]) == []
  {
  }

  lemma ViewOne(l: Line)
    ensures View([l]) == ViewLine(l)
  {
    ViewAppend([], l);
    assert [] + [l] == [l] && View([]) == [] && [] + ViewLine(l) == ViewLine(l);
  }

  lemma DroppedLine(l: Line)
    requires l.Hook? && HookLine(l.hook).None?
    ensures PrintedLine(l) == "" && ViewLine(l) == []
  {
    hide HookLine;
  }

  lemma {:induction false} FileUtf8(lines: seq<Line>)
    requires forall i :: 0 <= i < |lines| ==> Readable(lines[i])
    ensures Utf8(FileText(lines))
  {
    hide Readable, PrintedLine, Utf8;
    if lines == [] {
      AsciiText("");
    } else {
      assert Readable(lines[0]);
      ReadableUtf8(lines[0]);
      FileUtf8(lines[1..]);
      Utf8Both(PrintedLine(lines[0]), FileText(lines[1..]));
    }
  }

  /** The verifier and the analyzer read a readable file as exactly what its lines say. */
  lemma LoadOfReadable(lines: seq<Line>, ahead: nat)
    requires forall i :: 0 <= i < |lines| ==> Readable(lines[i])
    ensures LoadEvents(FileText(lines), ahead) == LoadQuietly(FileText(lines), ahead) == Some(View(lines))
  {
    hide Readable, FileText, View, Utf8, ReadTrace;
    FileUtf8(lines);
    ReadOfFile(lines, 1);
    assert View(lines) + [] == View(lines);
  }
}
