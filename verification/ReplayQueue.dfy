/** load_replay_events: the growing array of queued events, and the loader that fills it from the
    text of events.jsonl. */
module ReplayQueue {
  import opened CText
  import opened EventText
  import opened TraceEvent
  import opened TraceLog
  import opened HashChain
  import Hash

  // ---------- replay_events_t ----------

  const NO_EVENT := ReplayEvent(0, "", "", 0, 0, 0)
  const FIRST_CAPACITY := 64

  function Doubled(k: nat): (r: nat)
    ensures r >= FIRST_CAPACITY
  {
    if k == 0 then FIRST_CAPACITY else 2 * Doubled(k - 1)
  }

  function NextCapacity(cap: nat): nat { if cap == 0 then FIRST_CAPACITY else 2 * cap }

  class EventVector {
    var items: array<ReplayEvent>
    var len: nat
    var cap: nat
    // how many items every realloc so far has copied, and how many pushes succeeded
    ghost var copied: nat
    ghost var doublings: nat

    ghost predicate Valid()
      reads this
    {
      && items.Length == cap && len <= cap
      && (cap == 0 ==> copied == 0 && len == 0)
      && (cap > 0 ==> cap == Doubled(doublings) && copied + FIRST_CAPACITY == cap)
      && (cap > FIRST_CAPACITY ==> 2 * len >= cap)
    }

    ghost function Contents(): seq<ReplayEvent>
      reads this, items
      requires Valid()
    {
      items[..len]
    }

    constructor ()
      ensures Valid() && fresh(items) && Contents() == [] && cap == 0 && copied == 0
    {
      items := new ReplayEvent[0];
      len, cap, copied, doublings := 0, 0, 0, 0;
    }

    /** realloc to the next capacity, which copies every item; it fails when that is more than the
        allocator grants. */
    method Grow(largest: nat) returns (ok: bool)
      requires Valid() && len == cap
      modifies this
      ensures Valid() && len == old(len) && Contents() == old(Contents())
      ensures ok <==> NextCapacity(old(cap)) <= largest
      ensures ok ==> len < cap && fresh(items) && copied == old(copied) + len
      ensures !ok ==> items == old(items) && cap == old(cap) && copied == old(copied) && doublings == old(doublings)
    {
      var next := if cap != 0 then cap * 2 else FIRST_CAPACITY;
      if next > largest {
        return false;
      }
      var bigger := new ReplayEvent[next](_ => NO_EVENT);
      forall i | 0 <= i < len {
        bigger[i] := items[i];
      }
      copied := copied + len;
      doublings := if cap == 0 then 0 else doublings + 1;
      items := bigger;
      cap := next;
      ok := true;
    }

    method Push(e: ReplayEvent, largest: nat) returns (ok: bool)
      requires Valid()
      modifies this, items
      ensures Valid() && (items == old(items) || fresh(items))
      ensures ok ==> Contents() == old(Contents()) + [e] && len == old(len) + 1
      ensures !ok ==> Contents() == old(Contents()) && len == old(len) && cap == old(cap) && copied == old(copied)
      ensures ok <==> old(len) < old(cap) || NextCapacity(old(cap)) <= largest
    {
      hide Doubled;
      if len == cap {
        var grown := Grow(largest);
        if !grown {
          return false;
        }
      }
      items[len] := e;
      len := len + 1;
      ok := true;
    }

    /** Growing by doubling copies fewer than two items per push, over any number of pushes, and
        the capacity is 0 or 64 * 2^k. */
    lemma AmortizedCost()
      requires Valid() && len > 0
      ensures copied < 2 * len
      ensures exists k :: cap == Doubled(k)
    {
      assert cap == Doubled(doublings);
    }
  }

  // ---------- the loader ----------

  /** getline: up to and including the first newline, and what follows. */
  function FirstLine(text: string): (r: (string, string))
    ensures r.0 + r.1 == text && (text != "" ==> r.0 != "")
  {
    if text == "" then ("", "")
    else if text[0] == '\n' then ("\n", text[1..])
    else
      var (l, rest) := FirstLine(text[1..]);
      ([text[0]] + l, rest)
  }

  function AsSeq<T>(o: Option<T>): seq<T> {
    match o
    case None => []
    case Some(v) => [v]
  }

  function QueueOfText(text: string): seq<ReplayEvent>
    decreases |text|
  {
    if text == "" then []
    else
      var (l, rest) := FirstLine(text);
      AsSeq(ParseLine(l)) + QueueOfText(rest)
  }

  method LoadLine(line: string, events: EventVector, largest: nat) returns (ok: bool)
    requires events.Valid()
    modifies events, events.items
    ensures events.Valid() && (events.items == old(events.items) || fresh(events.items))
    ensures ok ==> events.Contents() == old(events.Contents()) + AsSeq(ParseLine(line))
    ensures !ok ==> events.Contents() == old(events.Contents()) && ParseLine(line).Some?
                    && events.len == events.cap && NextCapacity(events.cap) > largest
  {
    hide ParseLine, Doubled;
    var parsed := ParseLine(line);
    if parsed.None? {
      return true;
    }
    ok := events.Push(parsed.value, largest);
  }

  method LoadReplayEvents(text: string, largest: nat) returns (ok: bool, events: EventVector)
    ensures fresh(events) && fresh(events.items) && events.Valid()
    ensures ok ==> events.Contents() == QueueOfText(text)
    ensures !ok ==> events.Contents() < QueueOfText(text)
    ensures !ok ==> events.len == events.cap && NextCapacity(events.cap) > largest
  {
    hide ParseLine, FirstLine, QueueOfText, Doubled;
    events := new EventVector();
    var rest := text;
    while rest != ""
      invariant fresh(events) && fresh(events.items) && events.Valid()
      invariant events.Contents() + QueueOfText(rest) == QueueOfText(text)
      decreases |rest|
    {
      var (line, after) := FirstLine(rest);
      assert |line| + |after| == |rest|;
      QueueOfFirst(rest);
      ok := LoadLine(line, events, largest);
      if !ok {
        assert AsSeq(ParseLine(line)) != [];
        return;
      }
      rest := after;
    }
    QueueOfNothing();
    ok := true;
  }

  lemma QueueOfFirst(text: string)
    requires text != ""
    ensures QueueOfText(text) == AsSeq(ParseLine(FirstLine(text).0)) + QueueOfText(FirstLine(text).1)
  {
    hide ParseLine, FirstLine;
  }

  lemma QueueOfNothing()
    ensures QueueOfText("") == []
  {
  }

  // ---------- loading a trace file ----------

  /** What a tracer's own lines put in the queue, in order. */
  function QueueOfEvents(events: seq<Event>): seq<ReplayEvent> {
    if events == [] then []
    else QueueOfEvents(events[..|events| - 1]) + AsSeq(QueueEntry(events[|events| - 1]))
  }

  /** What the loader needs of a line; hook lines may have any numbers, and any line newlines in its names. */
  ghost predicate ParseableLine(l: Line) {
    match l
    case Own(e, prevHash, eventHash) =>
      Parseable(e) && (e.Syscall? ==> Fits(e)) && PlainText(prevHash) && PlainText(eventHash)
    case Hook(h) => ParseableHook(h)
  }

  predicate OneLine(text: string) { |text| > 0 && text[|text| - 1] == '\n' && Lacks(text[..|text| - 1], '\n') }

  lemma {:induction false} FirstLineOf(line: string, rest: string)
    requires OneLine(line)
    ensures FirstLine(line + rest) == (line, rest)
  {
    var text := line + rest;
    if |line| == 1 {
      assert line == "\n" && text[1..] == rest;
    } else {
      assert line[0] == line[..|line| - 1][0];
      assert text[1..] == line[1..] + rest;
      assert line[1..][..|line[1..]| - 1] == line[..|line| - 1][1..];
      FirstLineOf(line[1..], rest);
      assert line == [line[0]] + line[1..];
    }
  }

  lemma QueueOfLine(line: string, rest: string)
    requires OneLine(line)
    ensures QueueOfText(line + rest) == AsSeq(ParseLine(line)) + QueueOfText(rest)
  {
    hide ParseLine, FirstLine, QueueOfText;
    FirstLineOf(line, rest);
    QueueOfFirst(line + rest);
  }

  /** The first line of a text that holds a newline, and what is left of the text. */
  lemma {:induction false} SplitLine(s: string) returns (line: string, more: string)
    requires '\n' in s
    ensures s == line + more && OneLine(line)
  {
    if s[0] == '\n' {
      line, more := "\n", s[1..];
    } else {
      assert s == [s[0]] + s[1..];
      var l, m := SplitLine(s[1..]);
      line, more := [s[0]] + l, m;
      assert line[..|line| - 1] == [s[0]] + l[..|l| - 1];
    }
  }

  // ---------- lines that look like no syscall event ----------

  ghost predicate Unmarked(s: string) { FindAfter(s, Needle(Etype, "\"SYSCALL\"")) == None }

  /** However a text without the mark is split into lines, none of them is queued. */
  lemma {:induction false} UnmarkedQueuesNothing(s: string, rest: string)
    requires Unmarked(s) && s != "" && s[|s| - 1] == '\n'
    ensures QueueOfText(s + rest) == QueueOfText(rest)
    decreases |s|
  {
    hide FindAfter, QueueOfText, Needle, ParseLine;
    var line, more := SplitLine(s);
    FindInParts(line, more, Needle(Etype, "\"SYSCALL\""));
    NotParsed(line);
    assert s + rest == line + (more + rest);
    QueueOfLine(line, more + rest);
    if more != "" {
      assert more[|more| - 1] == s[|s| - 1];
      UnmarkedQueuesNothing(more, rest);
    } else {
      assert more + rest == rest;
    }
  }

  lemma NotParsed(line: string)
    requires Unmarked(line) || FindAfter(line, Needle(SyscallNo, "")) == None
    ensures ParseLine(line) == None
  {
    hide FindAfter, Needle;
  }

  lemma HookClean(h: HookEvent)
    requires ParseableHook(h)
    ensures AllClean(HookFields(h), Etype, "\"SYSCALL\"")
  {
    hide Decimal, SignedDecimal, Quiet;
    NumbersClean(h.seqNo, ",");
    NumbersClean(h.timeNs, ",");
    NumbersClean(h.pid, ",");
    NumbersClean(h.tid, ",");
    NumbersClean(h.value, "},");
    NumbersClean(h.ret, ",");
    NumbersClean(if h.ret < 0 then -h.ret else 0, "");
    PlainQuiet("adr.trace.v1", Etype, "\"SYSCALL\"");
    PlainQuiet("SYNC", Etype, "\"SYSCALL\"");
    PlainQuiet(h.name, Etype, "\"SYSCALL\"");
    PlainQuiet(h.phase, Etype, "\"SYSCALL\"");
    PlainQuiet(h.objectId, Etype, "\"SYSCALL\"");
  }

  /** No hook line is taken for a syscall event. */
  lemma HookUnmarked(h: HookEvent, hash: string)
    requires ParseableHook(h) && Lacks(hash, '"')
    ensures Unmarked(LineText(HookBody(h), "hook", hash))
  {
    hide FindAfter, RenderAll, Needle, KeyText, After, HookFields, ChainFields, Quiet;
    var fs, z, x := HookFields(h), TailText("hook", hash), "\"SYSCALL\"";
    HookClean(h);
    HookShape(h);
    assert LineText(HookBody(h), "hook", hash) == "{" + (RenderAll(fs) + z);
    NeedleFirst(Etype, x);
    FindSkips("{", RenderAll(fs) + z, Needle(Etype, x));
    FindInFields(fs, z, Etype, x);
    SyncIsNoSyscall(RenderAll(fs[7..]) + z);
    AfterAbsent(fs, z, Etype, x);
    NotInTail("hook", hash, Etype, x);
  }

  lemma SyncIsNoSyscall(rest: string)
    ensures !("\"SYSCALL\"" <= "\"SYNC\"," + rest)
  {
    assert "\"SYSCALL\""[3] == 'S' && ("\"SYNC\"," + rest)[3] == 'N';
  }

  lemma HookShape(h: HookEvent)
    requires ParseableHook(h)
    ensures var fs := HookFields(h);
            |fs| == 14 && fs[6].Value() == "\"SYNC\"," && forall i :: 0 <= i < 14 && fs[i].key == Etype ==> i == 6
  {
    hide Decimal, SignedDecimal, Quiet;
  }

  lemma HexPlain(s: string)
    requires forall i :: 0 <= i < |s| ==> Hash.IsHexDigit(s[i])
    ensures PlainText(s)
  {
  }

  lemma LineEnds(body: string, prevHash: string, eventHash: string)
    ensures var t := LineText(body, prevHash, eventHash); t != "" && t[|t| - 1] == '\n'
  {
    hide RenderAll;
  }

  // ---------- lines of syscall events ----------

  lemma OnlyMeansLacks(s: string)
    requires Only(s, c => c != '\n')
    ensures Lacks(s, '\n')
  {
  }

  /** A syscall body up to the end of its run_id. */
  function RunIdFront(runId: string): string {
    "{" + Str(SchemaVersion, "adr.trace.v1", ",").Render() + ("\"" + KeyText(RunId) + "\":\"") + runId
  }

  /** A syscall line after its run_id. */
  function RunIdBack(e: Event, prevHash: string, eventHash: string): string {
    "\"," + RenderAll(if |BodyFields(e)| >= 2 then BodyFields(e)[2..] else []) + TailText(prevHash, eventHash)
  }

  lemma JoinRunId(a: string, k: string, r: string, more: string)
    ensures "{" + (a + ((k + r + "\",") + more)) == ("{" + a + k + r) + ("\"," + more)
  {
  }

  lemma BodySplits(e: Event)
    requires e.Syscall?
    ensures |BodyFields(e)| >= 2
    ensures FullBody(e) == RunIdFront(e.stamp.runId) + ("\"," + RenderAll(BodyFields(e)[2..]))
  {
    hide Decimal, SignedDecimal, SyscallName, ErrnoOf, CallFields, ResultFields, PayloadFields, RenderAll, KeyText;
    var fs := BodyFields(e);
    var h := Header(e.stamp, "SYSCALL", SyscallName(e.entry.no), "exit");
    assert fs[0] == h[0] && fs[1] == h[1];
    RenderFirst(fs);
    RenderFirst(fs[1..]);
    assert fs[1..][1..] == fs[2..] && fs[1..][0] == fs[1];
    RunIdRender(e.stamp.runId);
    JoinRunId(fs[0].Render(), "\"" + KeyText(RunId) + "\":\"", e.stamp.runId, RenderAll(fs[2..]));
    hide BodyFields, Field.Render;
  }

  lemma RunIdRender(runId: string)
    ensures Str(RunId, runId, ",").Render() == "\"" + KeyText(RunId) + "\":\"" + runId + "\","
  {
    hide KeyText;
  }

  lemma RenderFirst(fs: seq<Field>)
    requires fs != []
    ensures RenderAll(fs) == fs[0].Render() + RenderAll(fs[1..])
  {
  }

  lemma LineSplits(e: Event, prevHash: string, eventHash: string)
    requires e.Syscall? && Fits(e)
    ensures LineText(Body(e), prevHash, eventHash) == RunIdFront(e.stamp.runId) + RunIdBack(e, prevHash, eventHash)
  {
    BodySplits(e);
    hide BodyFields, RenderAll, RunIdFront, FullBody, TailText;
    CutBody(e, prevHash, eventHash);
    JoinBack(RunIdFront(e.stamp.runId), RenderAll(BodyFields(e)[2..]), TailText(prevHash, eventHash));
    hide Body;
  }

  lemma JoinBack(f: string, b: string, tail: string)
    ensures f + ("\"," + b) + tail == f + ("\"," + b + tail)
  {
  }

  /** A search that the run_id survives is not met before its end. */
  lemma FrontClean(runId: string, k: Key, x: string)
    requires Quiet(runId, k, x) && IsSearch(x) && k != SchemaVersion && k != RunId
    ensures FindAfter(RunIdFront(runId), Needle(k, x)) == None
  {
    hide FindAfter, KeyText, Quiet, Needle, RenderAll, RunIdFront, IsSearch;
    var fs := FrontFields(runId);
    FrontFieldsClean(runId, k, x);
    FindInFields(fs, "", k, x);
    NothingAfterFront(runId, k, x);
    NeedleFirst(k, x);
    FindSkips("{", RenderAll(fs) + "", Needle(k, x));
    FrontRenders(runId);
    FindInParts(RunIdFront(runId), "\",", Needle(k, x));
  }

  function FrontFields(runId: string): seq<Field> { [Str(SchemaVersion, "adr.trace.v1", ","), Str(RunId, runId, ",")] }

  lemma FrontFieldsClean(runId: string, k: Key, x: string)
    requires Quiet(runId, k, x)
    ensures AllClean(FrontFields(runId), k, x)
  {
    hide Quiet;
    PlainQuiet("adr.trace.v1", k, x);
  }

  lemma NothingAfterFront(runId: string, k: Key, x: string)
    requires k != SchemaVersion && k != RunId
    ensures After(FrontFields(runId), "", k, x) == None
  {
    hide FindAfter, KeyText, Needle, RenderAll;
    AfterAbsent(FrontFields(runId), "", k, x);
    NeedleFirst(k, x);
    FindNothing(Needle(k, x));
  }

  lemma FrontRenders(runId: string)
    ensures "{" + (RenderAll(FrontFields(runId)) + "") == RunIdFront(runId) + "\","
  {
    hide KeyText, RenderAll;
    var fs := FrontFields(runId);
    RenderFirst(fs);
    OneRenders(fs[1]);
    assert fs[1..] == [fs[1]];
    RunIdRender(runId);
    hide Field.Render;
    JoinFront(fs[0].Render(), "\"" + KeyText(RunId) + "\":\"", runId);
  }

  lemma JoinFront(a: string, k: string, r: string)
    ensures "{" + (a + (k + r + "\",") + "") == ("{" + a + k + r) + "\","
  {
  }

  /** The back of a syscall line has no newline but its last char. */
  lemma BackIsOneLine(e: Event, prevHash: string, eventHash: string)
    requires e.Syscall? && (e.payload.Some? ==> Lacks(e.payload.value.sha256, '\n'))
    requires Lacks(prevHash, '\n') && Lacks(eventHash, '\n')
    ensures OneLine(RunIdBack(e, prevHash, eventHash))
  {
    hide RenderAll, BodyFields, FullBody, RunIdFront, Bare;
    var p := c => c != '\n';
    BareFields(e);
    BareIsSyscall(e);
    BodySplits(Bare(e));
    BodySplits(e);
    BareOnly(e, p);
    OnlyEnd(RunIdFront(""), "\"," + RenderAll(BodyFields(e)[2..]), p);
    RenderOnly(ChainFields(prevHash, eventHash), p);
    OnlyMeansLacks("\"," + RenderAll(BodyFields(e)[2..]));
    OnlyMeansLacks(RenderAll(ChainFields(prevHash, eventHash)));
    JoinChainLine("\"," + RenderAll(BodyFields(e)[2..]), RenderAll(ChainFields(prevHash, eventHash)));
  }

  lemma OnlyEnd(a: string, b: string, p: char -> bool)
    requires Only(a + b, p)
    ensures Only(b, p)
  {
    assert forall i :: 0 <= i < |b| ==> b[i] == (a + b)[|a| + i];
  }

  lemma JoinChainLine(a: string, b: string)
    requires Lacks(a, '\n') && Lacks(b, '\n')
    ensures OneLine(a + ("," + b + "\n"))
  {
    var t := a + ("," + b + "\n");
    assert t[..|t| - 1] == a + ("," + b);
  }

  /** The event without its run_id. */
  function Bare(e: Event): Event {
    match e
    case Process(s, name, target) => Process(s.(runId := ""), name, target)
    case Syscall(s, entry, ret, payload) => Syscall(s.(runId := ""), entry, ret, payload)
  }

  lemma BareIsSyscall(e: Event)
    requires e.Syscall?
    ensures Bare(e).Syscall? && Bare(e).stamp.runId == ""
  {
  }

  lemma BareFields(e: Event)
    requires e.Syscall?
    ensures |BodyFields(e)| >= 2
    ensures |BodyFields(Bare(e))| >= 2 && BodyFields(Bare(e))[2..] == BodyFields(e)[2..]
  {
    hide CallFields, ResultFields, PayloadFields, Decimal, SignedDecimal, SyscallName, ErrnoOf;
    var bare := Bare(e);
    var h := Header(e.stamp, "SYSCALL", SyscallName(e.entry.no), "exit");
    var g := Header(bare.stamp, "SYSCALL", SyscallName(e.entry.no), "exit");
    assert h[2..] == g[2..];
    var rest := CallFields(e.entry) + ResultFields(e.ret, e.payload.Some?) + PayloadFields(e.payload);
    assert BodyFields(e) == h + rest && BodyFields(bare) == g + rest;
  }

  lemma BareOnly(e: Event, p: char -> bool)
    requires e.Syscall? && (e.payload.Some? ==> Lacks(e.payload.value.sha256, '\n'))
    requires AllowsAscii(p) && (forall c :: c != '\n' ==> p(c))
    ensures Only(FullBody(Bare(e)), p)
  {
    hide FullBody;
    BodyOnly(Bare(e), p);
  }

  /** What follows the last newline, and what is in front of it. */
  lemma {:induction false} LastFragment(s: string) returns (front: string, last: string)
    ensures s == front + last && Lacks(last, '\n') && (front == "" || front[|front| - 1] == '\n')
  {
    if '\n' !in s {
      front, last := "", s;
    } else {
      var n := |s| - 1;
      if s[n] == '\n' {
        front, last := s, "";
      } else {
        assert s == s[..n] + [s[n]];
        var f, l := LastFragment(s[..n]);
        front, last := f, l + [s[n]];
      }
    }
  }

  /** Lines of which none has a syscall number queue nothing. */
  lemma {:induction false} NumberlessQueuesNothing(s: string, rest: string)
    requires FindAfter(s, Needle(SyscallNo, "")) == None && (s == "" || s[|s| - 1] == '\n')
    ensures QueueOfText(s + rest) == QueueOfText(rest)
    decreases |s|
  {
    hide FindAfter, QueueOfText, Needle, ParseLine;
    if s == "" {
      assert s + rest == rest;
    } else {
      var line, more := SplitLine(s);
      FindInParts(line, more, Needle(SyscallNo, ""));
      NotParsed(line);
      assert s + rest == line + (more + rest);
      QueueOfLine(line, more + rest);
      if more != "" {
        assert more[|more| - 1] == s[|s| - 1];
      }
      NumberlessQueuesNothing(more, rest);
    }
  }

  /** A search that does not stop in front of a newline goes on behind it. */
  lemma FindBehindLine(front: string, s: string, k: Key, x: string)
    requires FindAfter(front, Needle(k, x)) == None && IsSearch(x) && (front == "" || front[|front| - 1] == '\n')
    ensures FindAfter(front + s, Needle(k, x)) == FindAfter(s, Needle(k, x))
  {
    hide FindAfter, Needle;
    if front == "" {
      assert front + s == s;
    } else {
      var f := front[..|front| - 1];
      assert front == f + "\n" && front + s == f + ("\n" + s);
      FindInParts(f, "\n", Needle(k, x));
      NeedleFirst(k, x);
      NeedleLacks(k, x, '\n');
      FindAcross(f, "\n" + s, Needle(k, x));
      FindSkips("\n", s, Needle(k, x));
    }
  }

  /** What the back of the line holds is found behind any front. */
  lemma BackHolds(e: Event, prevHash: string, eventHash: string, last: string)
    requires e.Syscall?
    ensures FindAfter(last + RunIdBack(e, prevHash, eventHash), Needle(Etype, "\"SYSCALL\"")).Some?
    ensures e.payload.Some? ==>
              FindAfter(last + RunIdBack(e, prevHash, eventHash), "\"" + KeyText(PayloadRefKey) + "\"").Some?
  {
    hide FindAfter, BodyFields, TailText, SyscallName, SignedDecimal, Decimal, RunIdBack, RenderAll;
    SyscallShape(e);
    FieldBehind(e, prevHash, eventHash, last, 6, Needle(Etype, "\"SYSCALL\""));
    if e.payload.Some? {
      PayloadShape(e);
      FieldBehind(e, prevHash, eventHash, last, 19, "\"" + KeyText(PayloadRefKey) + "\"");
    }
  }

  lemma FieldBehind(e: Event, prevHash: string, eventHash: string, last: string, i: nat, needle: string)
    requires 2 <= i < |BodyFields(e)| && needle <= BodyFields(e)[i].Render()
    ensures FindAfter(last + RunIdBack(e, prevHash, eventHash), needle).Some?
  {
    hide FindAfter, BodyFields, TailText, RenderAll, Field.Render;
    var fs := BodyFields(e)[2..];
    var j := i - 2;
    RenderConcat(fs[..j], [fs[j]] + fs[j + 1..]);
    RenderConcat([fs[j]], fs[j + 1..]);
    assert fs == fs[..j] + ([fs[j]] + fs[j + 1..]) && fs[j] == BodyFields(e)[i];
    OneRenders(fs[j]);
    var p, f := last + "\"," + RenderAll(fs[..j]), fs[j].Render();
    var s := RenderAll(fs[j + 1..]) + TailText(prevHash, eventHash);
    var more := f[|needle|..] + s;
    assert last + RunIdBack(e, prevHash, eventHash) == p + (f + s);
    assert f + s == needle + more;
    assert p + (needle + more) == p + needle + more;
    FindPresent(p, needle, more);
  }

  /** The searches for the fields of a syscall event end alike. */
  ghost predicate SameSearches(a: string, b: string) {
    && FindAfter(a, Needle(SyscallNo, "")) == FindAfter(b, Needle(SyscallNo, ""))
    && FindAfter(a, Needle(Name, "\"")) == FindAfter(b, Needle(Name, "\""))
    && FindAfter(a, Needle(Ret, "")) == FindAfter(b, Needle(Ret, ""))
    && FindAfter(a, Needle(Offset, "")) == FindAfter(b, Needle(Offset, ""))
    && FindAfter(a, Needle(Length, "")) == FindAfter(b, Needle(Length, ""))
    && FindAfter(a, Needle(Sha256Key, "\"")) == FindAfter(b, Needle(Sha256Key, "\""))
  }

  ghost predicate Referred(s: string) { FindAfter(s, "\"" + KeyText(PayloadRefKey) + "\"").Some? }

  ghost predicate Unreferred(s: string) {
    && FindAfter(s, Needle(Offset, "")) == None && FindAfter(s, Needle(Length, "")) == None
    && FindAfter(s, Needle(Sha256Key, "\"")) == None
  }

  /** Equal searches give equal entries. */
  lemma SameEntries(a: string, b: string)
    requires SameSearches(a, b) && !Unmarked(a) && !Unmarked(b) && ((Referred(a) && Referred(b)) || Unreferred(a))
    ensures ParseLine(a) == ParseLine(b)
  {
    hide FindAfter, Needle, KeyText, ParseLong, Before;
  }

  lemma LineRefers(e: Event, prevHash: string, eventHash: string)
    requires e.Syscall? && Parseable(e) && Fits(e) && Lacks(prevHash, '"') && Lacks(eventHash, '"')
    ensures var line := LineText(Body(e), prevHash, eventHash);
            !Unmarked(line) && if e.payload.Some? then Referred(line) else Unreferred(line)
  {
    hide FindAfter, Needle, KeyText, Quiet, Fits, Body, LineText;
    EtypeFound(e, prevHash, eventHash);
    if e.payload.Some? {
      PayloadRefFound(e, prevHash, eventHash);
    } else {
      FieldAbsent(e, prevHash, eventHash, Offset, "");
      FieldAbsent(e, prevHash, eventHash, Length, "");
      FieldAbsent(e, prevHash, eventHash, Sha256Key, "\"");
    }
  }

  /** What follows the last newline of the run_id parses as the whole line does. */
  lemma BackParses(e: Event, prevHash: string, eventHash: string, front: string, last: string)
    requires e.Syscall? && Parseable(e) && Fits(e) && Lacks(prevHash, '"') && Lacks(eventHash, '"')
    requires RunIdFront(e.stamp.runId) == front + last && (front == "" || front[|front| - 1] == '\n')
    ensures FindAfter(front, Needle(SyscallNo, "")) == None
    ensures ParseLine(last + RunIdBack(e, prevHash, eventHash)) == QueueEntry(e)
  {
    var back := last + RunIdBack(e, prevHash, eventHash);
    RunIdHarmless(e);
    SearchesBehind(e.stamp.runId, front, last, back);
    SyscallLineRoundTrip(e, prevHash, eventHash);
    LineSplits(e, prevHash, eventHash);
    LineRefers(e, prevHash, eventHash);
    BackRefers(e, prevHash, eventHash, last);
    JoinFronts(front, last, RunIdBack(e, prevHash, eventHash));
    hide *;
    SameEntries(front + back, back);
  }

  lemma JoinFronts(f: string, l: string, b: string)
    ensures (f + l) + b == f + (l + b)
  {
  }

  lemma RunIdHarmless(e: Event)
    requires e.Syscall? && Parseable(e)
    ensures Harmless(e.stamp.runId)
  {
    hide Quiet;
  }

  lemma BackRefers(e: Event, prevHash: string, eventHash: string, last: string)
    requires e.Syscall?
    ensures var back := last + RunIdBack(e, prevHash, eventHash);
            !Unmarked(back) && (e.payload.Some? ==> Referred(back))
  {
    hide FindAfter, Needle, KeyText, RunIdBack;
    BackHolds(e, prevHash, eventHash, last);
  }

  lemma SearchesBehind(runId: string, front: string, last: string, back: string)
    requires Harmless(runId)
    requires RunIdFront(runId) == front + last && (front == "" || front[|front| - 1] == '\n')
    ensures FindAfter(front, Needle(SyscallNo, "")) == None && SameSearches(front + back, back)
  {
    hide FindAfter, Needle, RunIdFront, Quiet;
    SearchBehind(runId, front, last, back, SyscallNo, "");
    SearchBehind(runId, front, last, back, Name, "\"");
    SearchBehind(runId, front, last, back, Ret, "");
    SearchBehind(runId, front, last, back, Offset, "");
    SearchBehind(runId, front, last, back, Length, "");
    SearchBehind(runId, front, last, back, Sha256Key, "\"");
  }

  lemma SearchBehind(runId: string, front: string, last: string, back: string, k: Key, x: string)
    requires Quiet(runId, k, x) && IsSearch(x) && k != SchemaVersion && k != RunId
    requires RunIdFront(runId) == front + last && (front == "" || front[|front| - 1] == '\n')
    ensures FindAfter(front, Needle(k, x)) == None
    ensures FindAfter(front + back, Needle(k, x)) == FindAfter(back, Needle(k, x))
  {
    hide FindAfter, Needle, KeyText, RunIdFront, Quiet;
    FrontClean(runId, k, x);
    FindInParts(front, last, Needle(k, x));
    FindBehindLine(front, back, k, x);
  }

  /** A syscall line, whatever newlines its run_id brings in, queues its event and nothing else. */
  lemma SyscallLineQueues(e: Event, prevHash: string, eventHash: string, rest: string)
    requires e.Syscall? && Parseable(e) && Fits(e) && PlainText(prevHash) && PlainText(eventHash)
    ensures QueueOfText(LineText(Body(e), prevHash, eventHash) + rest) == AsSeq(QueueEntry(e)) + QueueOfText(rest)
  {
    var back := RunIdBack(e, prevHash, eventHash);
    var front, last := LastFragment(RunIdFront(e.stamp.runId));
    LineSplits(e, prevHash, eventHash);
    RefIsPlain(e);
    BackIsOneLine(e, prevHash, eventHash);
    BackParses(e, prevHash, eventHash, front, last);
    LastLine(last, back);
    JoinFragments(front, last, back, rest);
    hide *;
    NumberlessQueuesNothing(front, last + back + rest);
    QueueOfLine(last + back, rest);
  }

  lemma JoinFragments(f: string, l: string, b: string, rest: string)
    ensures (f + l) + b + rest == f + (l + b + rest)
  {
  }

  lemma RefIsPlain(e: Event)
    requires Parseable(e)
    ensures e.Syscall? && e.payload.Some? ==> PlainText(e.payload.value.sha256)
  {
    hide Quiet;
  }

  lemma LastLine(last: string, back: string)
    requires Lacks(last, '\n') && OneLine(back)
    ensures OneLine(last + back)
  {
    var line := last + back;
    assert line[..|line| - 1] == last + back[..|back| - 1];
  }

  /** Each line of the file queues its own event, if the queue wants it, or nothing. */
  lemma LineQueues(l: Line, rest: string)
    requires ParseableLine(l)
    ensures QueueOfText(PrintedLine(l) + rest) == LineQueue(l) + QueueOfText(rest)
  {
    hide LineText, Body, FullBody, HookBody, QueueEntry, Hash.HexDigest, QueueOfText, Parseable, Fits, ParseableHook;
    match l
    case Own(e, prevHash, eventHash) =>
      if e.Syscall? {
        SyscallLineQueues(e, prevHash, eventHash, rest);
      } else {
        ProcessUnmarked(e, prevHash, eventHash);
        LineEnds(Body(e), prevHash, eventHash);
        UnmarkedQueuesNothing(PrintedLine(l), rest);
        ProcessUnqueued(e);
      }
    case Hook(h) =>
      if HookLine(h).Some? {
        var hash := Hash.HexDigest(Bytes(HookBody(h)));
        HexPlain(hash);
        HookUnmarked(h, hash);
        LineEnds(HookBody(h), "hook", hash);
        UnmarkedQueuesNothing(PrintedLine(l), rest);
      } else {
        assert PrintedLine(l) + rest == rest;
      }
  }

  lemma ProcessUnqueued(e: Event)
    requires e.Process?
    ensures AsSeq(QueueEntry(e)) == []
  {
  }

  function LineQueue(l: Line): seq<ReplayEvent> {
    if l.Own? then AsSeq(QueueEntry(l.event)) else []
  }

  function QueueOfLines(lines: seq<Line>): seq<ReplayEvent> {
    if lines == [] then [] else LineQueue(lines[0]) + QueueOfLines(lines[1..])
  }

  /** Loading the text of a trace queues exactly the tracer's own wanted events, in order. */
  lemma {:induction false} LoadOfFile(lines: seq<Line>)
    requires forall i :: 0 <= i < |lines| ==> ParseableLine(lines[i])
    ensures QueueOfText(FileText(lines)) == QueueOfLines(lines)
  {
    hide PrintedLine, LineQueue, ParseableLine;
    if lines != [] {
      assert ParseableLine(lines[0]);
      hide QueueOfText;
      LineQueues(lines[0], FileText(lines[1..]));
      LoadOfFile(lines[1..]);
    }
  }

  lemma {:induction false} QueueOfLinesConcat(a: seq<Line>, b: seq<Line>)
    ensures QueueOfLines(a + b) == QueueOfLines(a) + QueueOfLines(b)
  {
    hide LineQueue;
    if a == [] {
      assert a + b == b;
    } else {
      assert (a + b)[1..] == a[1..] + b;
      QueueOfLinesConcat(a[1..], b);
    }
  }

  lemma QueueOfEventsAppend(events: seq<Event>, e: Event)
    ensures QueueOfEvents(events + [e]) == QueueOfEvents(events) + AsSeq(QueueEntry(e))
  {
    hide QueueEntry;
    assert (events + [e])[..|events|] == events;
  }

  /** Hook lines do not matter to the queue. */
  lemma {:induction false} QueueIsOfOwnEvents(lines: seq<Line>)
    ensures QueueOfLines(lines) == QueueOfEvents(OwnEvents(lines))
  {
    hide QueueEntry, QueueOfEvents, OwnEvents, QueueOfLines;
    if lines == [] {
      NoLinesNoQueue();
    } else {
      var p, l := lines[..|lines| - 1], lines[|lines| - 1];
      assert lines == p + [l];
      QueueIsOfOwnEvents(p);
      QueueOfLinesConcat(p, [l]);
      QueueOfOneLine(l);
      OwnEventsAppend(p, l);
      if l.Own? {
        QueueOfEventsAppend(OwnEvents(p), l.event);
      }
    }
  }

  lemma NoLinesNoQueue()
    ensures QueueOfLines([]) == QueueOfEvents(OwnEvents([])) == []
  {
  }

  lemma QueueOfOneLine(l: Line)
    ensures QueueOfLines([l]) == LineQueue(l)
  {
    hide LineQueue;
    assert [l][1..] == [];
  }
}
