/** Which run_ids disturb the loader: exactly those that one of its searches stops in. */
module Harmful {
  import opened CText
  import opened EventText
  import opened TraceEvent
  import opened HashChain
  import opened ReplayQueue
  import opened TraceBounds
  import Hash

  // ---------- searches that stop in the run_id ----------

  /** A first occurrence stays the first whatever is appended. */
  lemma {:induction false} FindStays(a: string, b: string, needle: string)
    requires FindAfter(a, needle).Some?
    ensures FindAfter(a + b, needle) == Some(FindAfter(a, needle).value + b)
  {
    if needle <= a {
      assert a == needle + a[|needle|..];
      assert a + b == needle + (a[|needle|..] + b);
    } else {
      assert (a + b)[1..] == a[1..] + b;
      FindStays(a[1..], b, needle);
      if needle <= a + b {
        EarlierFound(a, b, needle);
      }
    }
  }

  /** An occurrence that is complete within a, though not at its front, is none at the front of a + b. */
  lemma EarlierFound(a: string, b: string, needle: string)
    requires needle <= a + b && FindAfter(a, needle).Some?
    ensures needle <= a
  {
    FoundFits(a, needle);
    assert forall i :: 0 <= i < |needle| ==> a[i] == (a + b)[i] == needle[i];
  }

  lemma {:induction false} FoundFits(a: string, needle: string)
    requires FindAfter(a, needle).Some?
    ensures |needle| + |FindAfter(a, needle).value| <= |a|
    ensures FindAfter(a, needle).value == a[|a| - |FindAfter(a, needle).value|..]
    ensures var n := |a| - |FindAfter(a, needle).value|; a[n - |needle|..n] == needle
  {
    if !(needle <= a) {
      FoundFits(a[1..], needle);
    }
  }

  /** What a search that stops in the run_id leaves: the rest of the run_id with its quote, and the line. */
  lemma FoundInRunId(runId: string, k: Key, x: string, rest: string)
    requires !Quiet(runId, k, x) && IsSearch(x) && k != SchemaVersion && k != RunId
    ensures FindAfter("\"" + runId + "\"", Needle(k, x)).Some?
    ensures FindAfter(RunIdFront(runId) + ("\"" + rest), Needle(k, x))
         == Some(FindAfter("\"" + runId + "\"", Needle(k, x)).value + rest)
  {
    hide FindAfter, KeyText, Needle, Field.Render;
    var n, quoted := Needle(k, x), "\"" + runId + "\"";
    var f := Str(SchemaVersion, "adr.trace.v1", ",");
    var s := "\"" + KeyText(RunId) + "\"" + (":" + (quoted + rest));
    NeedleFirst(k, x);
    PlainQuiet("adr.trace.v1", k, x);
    FindInField(f, s, k, x);
    FindSkips("{", f.Render() + s, n);
    KeyNotFound(k, x, RunId, quoted + rest);
    FindStays(quoted, rest, n);
    JoinSearch(f.Render(), KeyText(RunId), runId, rest);
  }

  lemma JoinSearch(f: string, k: string, r: string, rest: string)
    ensures ("{" + f + ("\"" + k + "\":\"") + r) + ("\"" + rest)
         == "{" + (f + ("\"" + k + "\"" + (":" + (("\"" + r + "\"") + rest))))
  {
  }

  /** Another key is passed over. */
  lemma KeyNotFound(k: Key, x: string, other: Key, v: string)
    requires k != other && IsSearch(x)
    ensures FindAfter("\"" + KeyText(other) + "\"" + (":" + v), Needle(k, x)) == FindAfter(v, Needle(k, x))
  {
    hide FindAfter, KeyText, Needle;
    var n, key := Needle(k, x), KeyText(other);
    KeyTextPlain(other);
    NeedleFirst(k, x);
    NeedleAtQuote(k, x, key, ":" + v);
    if KeyText(k) == key {
      KeyTextInjective(k, other);
    }
    assert "\"" + key + "\"" + (":" + v) == "\"" + (key + ("\"" + (":" + v)));
    StepOverQuote(key + ("\"" + (":" + v)), n);
    FindSkips(key, "\"" + (":" + v), n);
    QuoteBeforeColon(k, x, v);
    FindSkips(":", v, n);
  }

  // ---------- what is read there does not depend on the event ----------

  lemma {:induction false} SkipStays(y: string, z: string)
    requires '"' in y
    ensures SkipSpaces(y + z) == SkipSpaces(y) + z && '"' in SkipSpaces(y)
  {
    assert (y + z)[0] == y[0];
    if IsSpace(y[0]) {
      assert y == [y[0]] + y[1..];
      assert (y + z)[1..] == y[1..] + z;
      SkipStays(y[1..], z);
    }
  }

  lemma {:induction false} DigitsStay(y: string, z: string)
    requires '"' in y
    ensures LeadingDigits(y + z) == LeadingDigits(y)
  {
    assert (y + z)[0] == y[0];
    if IsDigit(y[0]) {
      assert y == [y[0]] + y[1..];
      assert (y + z)[1..] == y[1..] + z;
      DigitsStay(y[1..], z);
    }
  }

  /** A number is read up to the quote at the latest. */
  lemma NumberStays(y: string, z: string)
    requires '"' in y
    ensures ParseLong(y + z) == ParseLong(y)
  {
    hide SkipSpaces, LeadingDigits, DigitsValue;
    SkipStays(y, z);
    var t := SkipSpaces(y);
    assert (t + z)[0] == t[0];
    if t[0] == '-' || t[0] == '+' {
      assert t == [t[0]] + t[1..];
      assert (t + z)[1..] == t[1..] + z;
      DigitsStay(t[1..], z);
    } else {
      DigitsStay(t, z);
    }
  }

  lemma {:induction false} TextStays(y: string, z: string)
    requires '"' in y
    ensures Before(y + z, '"') == Before(y, '"')
  {
    assert (y + z)[0] == y[0];
    if y[0] != '"' {
      assert y == [y[0]] + y[1..];
      assert (y + z)[1..] == y[1..] + z;
      TextStays(y[1..], z);
    }
  }

  // ---------- events that come out wrong ----------

  /** A syscall event with nothing in it but what is given. */
  function Probe(runId: string, no: int, ret: int, payload: Option<PayloadRef>): Event {
    Syscall(Stamp(runId, 1, 0, 1), Entry(no, [0, 0, 0, 0, 0, 0]), ret, payload)
  }

  function ProbeLine(e: Event): string { LineText(Body(e), "00", "00") }

  /** The line comes out as its event says. */
  ghost predicate ReadsBack(e: Event) { ParseLine(ProbeLine(e)) == QueueEntry(e) }

  /** The file of that line alone queues the event, if it is wanted, and nothing else. */
  ghost predicate QueuesItself(e: Event) { QueueOfText(ProbeLine(e)) == AsSeq(QueueEntry(e)) }

  lemma OneLineProbe(e: Event)
    requires Typed(e) && e.Syscall? && |e.stamp.runId| <= MAX_RUN_ID && Lacks(e.stamp.runId, '\n')
    ensures QueuesItself(e) <==> ReadsBack(e)
  {
    hide Body, RunIdFront, RunIdBack, Typed, Fits, Digits, Material, ParseLine, QueueEntry, QueueOfText, LineText;
    NothingTruncated(e);
    LineSplits(e, "00", "00");
    ReferencePlain(e);
    BackIsOneLine(e, "00", "00");
    FrontIsOneLine(e.stamp.runId);
    LastLine(RunIdFront(e.stamp.runId), RunIdBack(e, "00", "00"));
    var line := ProbeLine(e);
    assert line + "" == line;
    QueueOfLine(line, "");
    QueueOfNothing();
    assert AsSeq(ParseLine(line)) + [] == AsSeq(ParseLine(line));
    OptionsEqual(ParseLine(line), QueueEntry(e));
  }

  lemma OptionsEqual<T>(a: Option<T>, b: Option<T>)
    ensures AsSeq(a) == AsSeq(b) <==> a == b
  {
    assert a.Some? ==> AsSeq(a)[0] == a.value;
    assert b.Some? ==> AsSeq(b)[0] == b.value;
  }

  lemma ReferencePlain(e: Event)
    requires Typed(e)
    ensures e.Syscall? && e.payload.Some? ==> PlainText(e.payload.value.sha256)
  {
    if e.Syscall? && e.payload.Some? {
      HexPlain(e.payload.value.sha256);
    }
  }

  lemma FrontIsOneLine(runId: string)
    requires Lacks(runId, '\n')
    ensures Lacks(RunIdFront(runId), '\n')
  {
    hide KeyText;
    KeyTextWord(SchemaVersion);
    KeyTextWord(RunId);
    SchemaIsOneLine();
    hide Field.Render;
    LacksParts(Str(SchemaVersion, "adr.trace.v1", ",").Render(), KeyText(RunId), runId);
  }

  lemma SchemaIsOneLine()
    ensures Lacks(Str(SchemaVersion, "adr.trace.v1", ",").Render(), '\n')
  {
    var p := c => c != '\n';
    FieldRendersOnly(Str(SchemaVersion, "adr.trace.v1", ","), p);
    OnlyMeansLacks(Str(SchemaVersion, "adr.trace.v1", ",").Render());
  }

  lemma LacksParts(a: string, k: string, r: string)
    requires Lacks(a, '\n') && Lacks(k, '\n') && Lacks(r, '\n')
    ensures Lacks("{" + a + ("\"" + k + "\":\"") + r, '\n')
  {
  }

  /** The back of a line behind the quote that ends its run_id. */
  function BackRest(e: Event): string {
    "," + RenderAll(if |BodyFields(e)| >= 2 then BodyFields(e)[2..] else []) + TailText("00", "00")
  }

  lemma BackIs(e: Event)
    ensures RunIdBack(e, "00", "00") == "\"" + BackRest(e)
  {
    hide RenderAll, BodyFields, TailText;
    assert "\"," == "\"" + ",";
  }

  lemma ProbeLineIs(e: Event)
    requires Typed(e) && e.Syscall? && |e.stamp.runId| <= MAX_RUN_ID
    ensures ProbeLine(e) == RunIdFront(e.stamp.runId) + ("\"" + BackRest(e))
  {
    NothingTruncated(e);
    LineSplits(e, "00", "00");
    BackIs(e);
    LineOfProbe(e);
    hide *;
  }

  lemma LineOfProbe(e: Event)
    ensures ProbeLine(e) == LineText(Body(e), "00", "00")
  {
    hide LineText, Body;
  }

  lemma FieldIs(line: string, k: Key, rest: string)
    requires FindAfter(line, Needle(k, "")) == Some(rest)
    ensures ParseField(line, k) == ParseLong(rest)
  {
    hide ParseLong;
  }

  lemma TextIs(line: string, k: Key, size: nat, rest: string)
    requires size > 0 && FindAfter(line, Needle(k, "\"")) == Some(rest)
    ensures ParseText(line, k, size) ==
            if Before(rest, '"').None? then None else Some(Snprintf(size, Before(rest, '"').value))
  {
    hide Before, Snprintf;
  }

  /** The closing quote is still to come after the colon of a key. */
  lemma QuoteLeft(runId: string, k: Key)
    requires FindAfter("\"" + runId + "\"", Needle(k, "")).Some?
    ensures '"' in FindAfter("\"" + runId + "\"", Needle(k, "")).value
  {
    hide FindAfter, KeyText;
    var q, n := "\"" + runId + "\"", Needle(k, "");
    FoundFits(q, n);
    var y := FindAfter(q, n).value;
    assert n[|n| - 1] == ':';
    assert y != "" ==> y[|y| - 1] == q[|q| - 1] == '"';
  }

  /** After a key and an opening quote, the run_id goes on up to its own closing quote, if it goes on. */
  lemma QuoteOrNothingLeft(runId: string, k: Key)
    requires FindAfter("\"" + runId + "\"", Needle(k, "\"")).Some?
    ensures var y := FindAfter("\"" + runId + "\"", Needle(k, "\"")).value; y == "" || '"' in y
  {
    hide FindAfter, KeyText;
    var q := "\"" + runId + "\"";
    FoundFits(q, Needle(k, "\""));
    var y := FindAfter(q, Needle(k, "\"")).value;
    assert y != "" ==> y[|y| - 1] == q[|q| - 1] == '"';
  }

  /** What a disturbed search for a number yields, whatever the event. */
  function FixedNumber(runId: string, k: Key): Option<int>
    requires !Quiet(runId, k, "")
  {
    ParseLong(FindAfter("\"" + runId + "\"", Needle(k, "")).value)
  }

  lemma NumberFixed(e: Event, k: Key)
    requires Typed(e) && e.Syscall? && |e.stamp.runId| <= MAX_RUN_ID && !Quiet(e.stamp.runId, k, "")
    requires k != SchemaVersion && k != RunId
    ensures ParseField(ProbeLine(e), k) == FixedNumber(e.stamp.runId, k)
  {
    hide Typed, KeyText, Needle, FindAfter, ProbeLine, BackRest, ParseField, RunIdFront, ParseLong;
    var runId, rest := e.stamp.runId, BackRest(e);
    var y := FindAfter("\"" + runId + "\"", Needle(k, "")).value;
    ProbeLineIs(e);
    FoundInRunId(runId, k, "", rest);
    QuoteLeft(runId, k);
    NumberStays(y, rest);
    FieldIs(ProbeLine(e), k, y + rest);
    assert FixedNumber(runId, k) == ParseLong(y);
    hide *;
  }

  /** What a disturbed search for a text yields: something that is the same for all events, or something that
      begins with a comma or is empty. */
  function FixedText(runId: string, k: Key, size: nat): string
    requires !Quiet(runId, k, "\"") && size > 0
  {
    var b := Before(FindAfter("\"" + runId + "\"", Needle(k, "\"")).value, '"');
    if b.Some? then Snprintf(size, b.value) else ""
  }

  lemma TextFixed(e: Event, k: Key, size: nat)
    requires Typed(e) && e.Syscall? && |e.stamp.runId| <= MAX_RUN_ID && !Quiet(e.stamp.runId, k, "\"")
    requires k != SchemaVersion && k != RunId && size > 1
    ensures var s := OrElse(ParseText(ProbeLine(e), k, size), "");
            s == FixedText(e.stamp.runId, k, size) || s == "" || s[0] == ','
  {
    hide Typed, KeyText, Needle, Before, Snprintf, FindAfter, ProbeLine, BackRest, FixedText, ParseText, RunIdFront;
    var runId, rest := e.stamp.runId, BackRest(e);
    var y := FindAfter("\"" + runId + "\"", Needle(k, "\"")).value;
    ProbeLineIs(e);
    FoundInRunId(runId, k, "\"", rest);
    QuoteOrNothingLeft(runId, k);
    TextIs(ProbeLine(e), k, size, y + rest);
    RestComma(e);
    FixedTextIs(runId, k, size, y);
    hide *;
    TextLeft(y, rest, size, ParseText(ProbeLine(e), k, size), FixedText(runId, k, size));
  }

  lemma FixedTextIs(runId: string, k: Key, size: nat, y: string)
    requires !Quiet(runId, k, "\"") && size > 0 && FindAfter("\"" + runId + "\"", Needle(k, "\"")) == Some(y)
    ensures FixedText(runId, k, size) == if Before(y, '"').Some? then Snprintf(size, Before(y, '"').value) else ""
  {
    hide Before, Snprintf;
  }

  lemma TextLeft(y: string, rest: string, size: nat, parsed: Option<string>, fixed: string)
    requires size > 1 && (y == "" || '"' in y) && rest != "" && rest[0] == ','
    requires var b := Before(y + rest, '"'); parsed == if b.None? then None else Some(Snprintf(size, b.value))
    requires fixed == if Before(y, '"').Some? then Snprintf(size, Before(y, '"').value) else ""
    ensures var s := OrElse(parsed, ""); s == fixed || s == "" || s[0] == ','
  {
    if y == "" {
      assert y + rest == rest;
      CommaFirst(rest);
    } else {
      TextStays(y, rest);
    }
  }

  lemma RestComma(e: Event)
    ensures BackRest(e) != "" && BackRest(e)[0] == ','
  {
    hide RenderAll, BodyFields, TailText;
  }

  lemma CommaFirst(s: string)
    requires s != "" && s[0] == ','
    ensures Before(s, '"').Some? ==> Before(s, '"').value != "" && Before(s, '"').value[0] == ','
  {
  }

  // ---------- for every disturbed search, an event that comes out wrong ----------

  /** What an entry read back says of the searches. */
  lemma EntryTells(line: string)
    requires ParseLine(line).Some?
    ensures var q := ParseLine(line).value;
            && ParseField(line, SyscallNo) == Some(q.no) && q.name == OrElse(ParseText(line, Name, 64), "")
            && q.ret == OrElse(ParseField(line, Ret), 0)
            && (q.length > 0 ==>
                 && q.offset == OrElse(ParseField(line, Offset), 0)
                 && q.length == OrElse(ParseField(line, Length), 0)
                 && q.sha256 == OrElse(ParseText(line, Sha256Key, 65), ""))
  {
    hide FindAfter, ParseField, ParseText;
  }

  /** A result, or a reference, that the queue keeps. */
  lemma ProbeQueued(runId: string, no: int, ret: int, payload: Option<PayloadRef>)
    requires no == SYS_CLOCK_GETTIME || no == SYS_GETRANDOM
    ensures QueueEntry(Probe(runId, no, ret, payload)) ==
            Some(match payload
                 case None => ReplayEvent(no, SyscallName(no), "", ret, 0, 0)
                 case Some(p) => ReplayEvent(no, SyscallName(no), p.sha256, ret, p.offset, p.length))
  {
    hide SyscallName;
  }

  lemma ProbeTyped(runId: string, no: int, ret: int, payload: Option<PayloadRef>)
    requires no == SYS_CLOCK_GETTIME || no == SYS_GETRANDOM
    requires IsLong(ret) && (payload.Some? ==> RefTyped(payload.value))
    ensures Typed(Probe(runId, no, ret, payload))
  {
    hide IsHex;
  }

  lemma NumberLost(runId: string) returns (e: Event)
    requires |runId| <= MAX_RUN_ID && !Quiet(runId, SyscallNo, "")
    ensures Typed(e) && e.Syscall? && e.stamp.runId == runId && !ReadsBack(e)
  {
    hide Quiet, ProbeLine, ParseField, ParseText, FixedNumber;
    var no := if FixedNumber(runId, SyscallNo) == Some(SYS_CLOCK_GETTIME) then SYS_GETRANDOM else SYS_CLOCK_GETTIME;
    e := Probe(runId, no, 0, None);
    ProbeTyped(runId, no, 0, None);
    ProbeQueued(runId, no, 0, None);
    NumberFixed(e, SyscallNo);
    hide ParseLine, QueueEntry, Typed, SyscallName;
    if ReadsBack(e) {
      EntryTells(ProbeLine(e));
    }
  }

  lemma NameLost(runId: string) returns (e: Event)
    requires |runId| <= MAX_RUN_ID && !Quiet(runId, Name, "\"")
    ensures Typed(e) && e.Syscall? && e.stamp.runId == runId && !ReadsBack(e)
  {
    hide Quiet, ProbeLine, ParseField, ParseText, FixedText;
    var no := if FixedText(runId, Name, 64) == "clock_gettime" then SYS_GETRANDOM else SYS_CLOCK_GETTIME;
    e := Probe(runId, no, 0, None);
    assert SyscallName(no) != FixedText(runId, Name, 64) && SyscallName(no) != "" && SyscallName(no)[0] != ',' by {
      assert "getrandom"[0] == 'g' && "clock_gettime"[0] == 'c';
    }
    ProbeTyped(runId, no, 0, None);
    ProbeQueued(runId, no, 0, None);
    TextFixed(e, Name, 64);
    hide ParseLine, QueueEntry, Typed, SyscallName;
    if ReadsBack(e) {
      EntryTells(ProbeLine(e));
    }
  }

  lemma RetLost(runId: string) returns (e: Event)
    requires |runId| <= MAX_RUN_ID && !Quiet(runId, Ret, "")
    ensures Typed(e) && e.Syscall? && e.stamp.runId == runId && !ReadsBack(e)
  {
    hide Quiet, ProbeLine, ParseField, ParseText, FixedNumber;
    var ret := if OrElse(FixedNumber(runId, Ret), 0) == 0 then 1 else 0;
    e := Probe(runId, SYS_CLOCK_GETTIME, ret, None);
    ProbeTyped(runId, SYS_CLOCK_GETTIME, ret, None);
    ProbeQueued(runId, SYS_CLOCK_GETTIME, ret, None);
    NumberFixed(e, Ret);
    hide ParseLine, QueueEntry, Typed, SyscallName;
    if ReadsBack(e) {
      EntryTells(ProbeLine(e));
    }
  }

  /** 64 times the same digit. */
  function Digit64(c: char): (s: string)
    requires Hash.IsHexDigit(c)
    ensures |s| == 64 && IsHex(s) && s[0] == c
  {
    seq(64, _ => c)
  }

  lemma ReferenceLost(runId: string) returns (e: Event)
    requires |runId| <= MAX_RUN_ID
    requires !Quiet(runId, Offset, "") || !Quiet(runId, Length, "") || !Quiet(runId, Sha256Key, "\"")
    ensures Typed(e) && e.Syscall? && e.stamp.runId == runId && !ReadsBack(e)
  {
    hide Quiet, ProbeLine, ParseField, ParseText, FixedNumber, FixedText, IsHex, Digit64;
    var offset := if !Quiet(runId, Offset, "") && OrElse(FixedNumber(runId, Offset), 0) == 0 then 1 else 0;
    var length := if !Quiet(runId, Length, "") && OrElse(FixedNumber(runId, Length), 0) == 1 then 2 else 1;
    var sha := if !Quiet(runId, Sha256Key, "\"") && FixedText(runId, Sha256Key, 65) == Digit64('0') then Digit64('1')
               else Digit64('0');
    assert Digit64('0') != Digit64('1') by { assert Digit64('0')[0] != Digit64('1')[0]; }
    var p := PayloadRef(offset, length, sha);
    e := Probe(runId, SYS_CLOCK_GETTIME, 0, Some(p));
    ProbeTyped(runId, SYS_CLOCK_GETTIME, 0, Some(p));
    ProbeQueued(runId, SYS_CLOCK_GETTIME, 0, Some(p));
    if !Quiet(runId, Offset, "") {
      NumberFixed(e, Offset);
    } else if !Quiet(runId, Length, "") {
      NumberFixed(e, Length);
    } else {
      TextFixed(e, Sha256Key, 65);
    }
    hide ParseLine, QueueEntry, Typed, SyscallName;
    if ReadsBack(e) {
      EntryTells(ProbeLine(e));
    }
  }

  /** The run_ids under which the loader reads back every syscall event exactly as it was written are
      precisely those that none of its six searches for a field stops in (newlines aside, which do not
      matter to the loader: ReplayQueue.SyscallLineQueues). */
  lemma RunIdsReadBack(runId: string)
    requires |runId| <= MAX_RUN_ID && Lacks(runId, '\n')
    ensures (forall e: Event :: e.Syscall? && Typed(e) && e.stamp.runId == runId ==> QueuesItself(e))
            <==> Harmless(runId)
  {
    hide Typed, ReadsBack, QueuesItself, Quiet;
    if Harmless(runId) {
      forall e: Event | e.Syscall? && Typed(e) && e.stamp.runId == runId
        ensures QueuesItself(e)
      {
        HarmlessReadsBack(e);
        OneLineProbe(e);
      }
    } else {
      var e;
      if !Quiet(runId, SyscallNo, "") {
        e := NumberLost(runId);
      } else if !Quiet(runId, Name, "\"") {
        e := NameLost(runId);
      } else if !Quiet(runId, Ret, "") {
        e := RetLost(runId);
      } else {
        e := ReferenceLost(runId);
      }
      OneLineProbe(e);
    }
  }

  lemma HarmlessReadsBack(e: Event)
    requires e.Syscall? && Typed(e) && |e.stamp.runId| <= MAX_RUN_ID && Harmless(e.stamp.runId)
    ensures ReadsBack(e)
  {
    hide Typed, Harmless, Parseable, Fits, Body, LineText, QueueEntry, ParseLine, ReadsBack, ProbeLine, Digits;
    hide Material;
    NothingTruncated(e);
    SyscallParseable(e);
    SyscallLineRoundTrip(e, "00", "00");
    LineOfProbe(e);
    ReadsBackIs(e);
  }

  lemma ReadsBackIs(e: Event)
    ensures ReadsBack(e) <==> ParseLine(ProbeLine(e)) == QueueEntry(e)
  {
    hide ParseLine, ProbeLine, QueueEntry;
  }

  lemma SyscallParseable(e: Event)
    requires e.Syscall? && Typed(e) && Harmless(e.stamp.runId)
    ensures Parseable(e)
  {
    hide Quiet;
    if e.payload.Some? {
      HexPlain(e.payload.value.sha256);
    }
  }
}
