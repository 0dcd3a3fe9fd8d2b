/** The events both tracers write to events.jsonl, the text they print them as, and the loader's
    parser for that text. */
module TraceEvent {
  import opened CText
  import opened EventText

  const SYS_READ := 0
  const SYS_WRITE := 1
  const SYS_CLOSE := 3
  const SYS_LSEEK := 8
  const SYS_GETTIMEOFDAY := 96
  const SYS_FUTEX := 202
  const SYS_CLOCK_GETTIME := 228
  const SYS_OPENAT := 257
  const SYS_GETRANDOM := 318

  type Args = a: seq<nat> | |a| == 6 witness [0, 0, 0, 0, 0, 0]

  datatype Entry = Entry(no: int, args: Args)

  datatype PayloadRef = PayloadRef(offset: int, length: nat, sha256: string)

  datatype Stamp = Stamp(runId: string, seqNo: nat, timeNs: nat, pid: int)

  datatype Event =
    | Process(stamp: Stamp, name: string, target: string)
    | Syscall(stamp: Stamp, entry: Entry, ret: int, payload: Option<PayloadRef>)

  /** syscall_name, with the generated name for the numbers it does not know. */
  function SyscallName(no: int): string {
    if no == SYS_READ then "read"
    else if no == SYS_WRITE then "write"
    else if no == SYS_OPENAT then "openat"
    else if no == SYS_CLOSE then "close"
    else if no == SYS_LSEEK then "lseek"
    else if no == SYS_FUTEX then "futex"
    else if no == SYS_GETRANDOM then "getrandom"
    else if no == SYS_CLOCK_GETTIME then "clock_gettime"
    else if no == SYS_GETTIMEOFDAY then "gettimeofday"
    else "sys_" + SignedDecimal(no)
  }

  predicate IsReplayable(no: int) {
    no == SYS_READ || no == SYS_GETRANDOM || no == SYS_CLOCK_GETTIME || no == SYS_GETTIMEOFDAY
  }

  /** payload_addr: the buffer argument of a replayable call. */
  function PayloadAddr(e: Entry): nat {
    if e.no == SYS_READ || e.no == SYS_CLOCK_GETTIME then e.args[1]
    else if e.no == SYS_GETRANDOM || e.no == SYS_GETTIMEOFDAY then e.args[0]
    else 0
  }

  /** A conversion to a 32-bit int. */
  function ToInt32(n: int): int { (n + 0x8000_0000) % 0x1_0000_0000 - 0x8000_0000 }

  function ErrnoOf(ret: int): int { if ret < 0 then ToInt32(-ret) else 0 }

  // ---------- printing ----------

  function Header(s: Stamp, etype: string, name: string, phase: string): seq<Field> {
    [Str(SchemaVersion, "adr.trace.v1", ","), Str(RunId, s.runId, ","), Num(Seq, Decimal(s.seqNo) + ","),
     Num(TimeNs, Decimal(s.timeNs) + ","), Num(Pid, SignedDecimal(s.pid) + ","), Num(Tid, SignedDecimal(s.pid) + ","),
     Str(Etype, etype, ","), Str(Name, name, ","), Str(Phase, phase, ",")]
  }

  function CallFields(e: Entry): seq<Field> {
    [Num(EventText.Args, "{"), Num(SyscallNo, SignedDecimal(e.no) + ","),
     Num(A0, Decimal(e.args[0]) + ","), Num(A1, Decimal(e.args[1]) + ","), Num(A2, Decimal(e.args[2]) + ","),
     Num(A3, Decimal(e.args[3]) + ","), Num(A4, Decimal(e.args[4]) + ","), Num(A5, Decimal(e.args[5]) + "},")]
  }

  function ResultFields(ret: int, hasPayload: bool): seq<Field> {
    [Num(Ret, SignedDecimal(ret) + ","), Num(Errno, SignedDecimal(ErrnoOf(ret)) + if hasPayload then "," else "")]
  }

  function PayloadFields(p: Option<PayloadRef>): seq<Field> {
    match p
    case None => []
    case Some(r) =>
      [Num(PayloadRefKey, "{"), Str(File, "payload.bin", ","), Num(Offset, SignedDecimal(r.offset) + ","),
       Num(Length, Decimal(r.length) + ","), Str(Sha256Key, r.sha256, ","), Str(Encoding, "raw", "}")]
  }

  function BodyFields(e: Event): seq<Field> {
    match e
    case Process(s, name, target) =>
      Header(s, "PROCESS", name, "instant") + [Num(EventText.Args, "{"), Str(Target, target, "}")]
    case Syscall(s, entry, ret, payload) =>
      Header(s, "SYSCALL", SyscallName(entry.no), "exit") + CallFields(entry)
      + ResultFields(ret, payload.Some?) + PayloadFields(payload)
  }

  function FullBody(e: Event): string { "{" + RenderAll(BodyFields(e)) }

  /** payload_json, the buffer the reference is printed into before it goes into the body. */
  function PayloadJson(p: Option<PayloadRef>): string { Snprintf(512, RenderAll(PayloadFields(p))) }

  /** The body buffers: 4096 chars in emit_process, 8192 in emit_syscall. */
  function Body(e: Event): string {
    match e
    case Process(_, _, _) => Snprintf(4096, FullBody(e))
    case Syscall(s, entry, ret, payload) =>
      Snprintf(8192, "{" + RenderAll(Header(s, "SYSCALL", SyscallName(entry.no), "exit") + CallFields(entry)
                                     + ResultFields(ret, payload.Some?)) + PayloadJson(payload))
  }

  function ChainFields(prevHash: string, eventHash: string): seq<Field> {
    [Str(PrevHash, prevHash, ","), Str(EventHash, eventHash, "}")]
  }

  /** One line of events.jsonl, with its newline. */
  function LineText(body: string, prevHash: string, eventHash: string): string {
    body + "," + RenderAll(ChainFields(prevHash, eventHash)) + "\n"
  }

  // ---------- parsing, as load_replay_events does it ----------

  datatype ReplayEvent = ReplayEvent(no: int, name: string, sha256: string, ret: int, offset: int, length: nat)

  function ParseField(line: string, k: Key): Option<int> {
    match FindAfter(line, Needle(k, ""))
    case None => None
    case Some(rest) => ParseLong(rest)
  }

  /** parse_string_field and parse_name: the text up to the next quote, cut to the buffer. */
  function ParseText(line: string, k: Key, size: nat): Option<string>
    requires size > 0
  {
    match FindAfter(line, Needle(k, "\""))
    case None => None
    case Some(rest) =>
      match Before(rest, '"')
      case None => None
      case Some(t) => Some(Snprintf(size, t))
  }

  /** should_load_replay_event */
  predicate ShouldLoad(e: ReplayEvent) {
    e.no == SYS_READ ==> 0 < e.length <= 256
  }

  /** The event a line puts in the replay queue, if it puts one. */
  function ParseLine(line: string): Option<ReplayEvent> {
    if FindAfter(line, Needle(Etype, "\"SYSCALL\"")).None? then None
    else
      match ParseField(line, SyscallNo)
      case None => None
      case Some(no) =>
        if !IsReplayable(no) then None
        else
          var name := OrElse(ParseText(line, Name, 64), "");
          var ret := OrElse(ParseField(line, Ret), 0);
          var hasPayload := FindAfter(line, "\"" + KeyText(PayloadRefKey) + "\"").Some?;
          var offset := if hasPayload then OrElse(ParseField(line, Offset), 0) else 0;
          var length := if hasPayload then OrElse(ParseField(line, Length), 0) else 0;
          var sha := if hasPayload then OrElse(ParseText(line, Sha256Key, 65), "") else "";
          var e := ReplayEvent(no, name, sha, ret, offset, if length > 0 then length else 0);
          if ShouldLoad(e) then Some(e) else None
  }

  // ---------- the round trip ----------

  predicate PlainText(s: string) { Lacks(s, '"') && Lacks(s, '\n') }

  /** No search for a field of a syscall event stops in the text. */
  predicate Harmless(s: string) {
    && Quiet(s, SyscallNo, "") && Quiet(s, Name, "\"") && Quiet(s, Ret, "")
    && Quiet(s, Offset, "") && Quiet(s, Length, "") && Quiet(s, Sha256Key, "\"")
  }

  /** The text does not look like the mark of a syscall event. */
  predicate Silent(s: string) { Quiet(s, Etype, "\"SYSCALL\"") }

  predicate IsLong(n: int) { LONG_MIN <= n <= LONG_MAX }

  /** What the code's own types guarantee of an event, and what the loader needs of its texts. */
  predicate Parseable(e: Event) {
    match e
    case Process(s, name, target) => Silent(s.runId) && Lacks(name, '"') && Silent(target)
    case Syscall(s, entry, ret, payload) =>
      && Harmless(s.runId) && IsLong(entry.no) && IsLong(ret)
      && (payload.Some? ==>
        && IsLong(payload.value.offset) && IsLong(payload.value.length)
        && PlainText(payload.value.sha256) && |payload.value.sha256| <= 64)
  }

  /** The event itself, as the replay queue holds it. */
  function QueueEntry(e: Event): Option<ReplayEvent> {
    match e
    case Process(_, _, _) => None
    case Syscall(_, entry, ret, payload) =>
      if !IsReplayable(entry.no) then None
      else
        var r := match payload
          case None => ReplayEvent(entry.no, SyscallName(entry.no), "", ret, 0, 0)
          case Some(p) => ReplayEvent(entry.no, SyscallName(entry.no), p.sha256, ret, p.offset, p.length);
        if ShouldLoad(r) then Some(r) else None
  }

  ghost predicate Fits(e: Event) { Body(e) == FullBody(e) }

  lemma NumbersClean(n: int, tail: string)
    requires Lacks(tail, '"')
    ensures Lacks(SignedDecimal(n) + tail, '"')
    ensures n >= 0 ==> Lacks(Decimal(n) + tail, '"')
  {
    SignedDecimalLacks(n, '"');
  }

  lemma HeaderClean(s: Stamp, etype: string, name: string, phase: string, k: Key, x: string)
    requires Quiet(s.runId, k, x) && Lacks(etype, '"') && Lacks(name, '"') && Lacks(phase, '"')
    ensures AllClean(Header(s, etype, name, phase), k, x)
  {
    hide Decimal, SignedDecimal, Quiet;
    PlainQuiet("adr.trace.v1", k, x);
    PlainQuiet(etype, k, x);
    PlainQuiet(name, k, x);
    PlainQuiet(phase, k, x);
    NumbersClean(s.seqNo, ",");
    NumbersClean(s.timeNs, ",");
    NumbersClean(s.pid, ",");
  }

  lemma CallClean(e: Entry, k: Key, x: string)
    ensures AllClean(CallFields(e), k, x)
  {
    hide Decimal, SignedDecimal;
    NumbersClean(e.no, ",");
    NumbersClean(e.args[0], ",");
    NumbersClean(e.args[1], ",");
    NumbersClean(e.args[2], ",");
    NumbersClean(e.args[3], ",");
    NumbersClean(e.args[4], ",");
    NumbersClean(e.args[5], "},");
  }

  lemma ResultClean(ret: int, hasPayload: bool, k: Key, x: string)
    ensures AllClean(ResultFields(ret, hasPayload), k, x)
  {
    hide Decimal, SignedDecimal;
    NumbersClean(ret, ",");
    NumbersClean(ErrnoOf(ret), ",");
    NumbersClean(ErrnoOf(ret), "");
  }

  lemma PayloadClean(p: Option<PayloadRef>, k: Key, x: string)
    requires p.Some? ==> Lacks(p.value.sha256, '"')
    ensures AllClean(PayloadFields(p), k, x)
  {
    hide Decimal, SignedDecimal, Quiet;
    if p.Some? {
      PlainQuiet("payload.bin", k, x);
      PlainQuiet(p.value.sha256, k, x);
      PlainQuiet("raw", k, x);
      NumbersClean(p.value.offset, ",");
      NumbersClean(p.value.length, ",");
    }
  }

  lemma NameClean(no: int)
    ensures Lacks(SyscallName(no), '"')
  {
    hide SignedDecimal;
    SignedDecimalLacks(no, '"');
  }

  // ---------- the fields of a syscall body, in printed order ----------

  function Rank(k: Key): nat {
    match k
    case SchemaVersion => 0 case RunId => 1 case Seq => 2 case TimeNs => 3 case Pid => 4 case Tid => 5
    case Etype => 6 case Name => 7 case Phase => 8 case Args => 9 case SyscallNo => 10
    case A0 => 11 case A1 => 12 case A2 => 13 case A3 => 14 case A4 => 15 case A5 => 16
    case Ret => 17 case Errno => 18 case PayloadRefKey => 19 case File => 20 case Offset => 21
    case Length => 22 case Sha256Key => 23 case Encoding => 24
    case _ => 25
  }

  ghost predicate Ranked(fs: seq<Field>, from: nat) {
    forall i :: 0 <= i < |fs| ==> Rank(fs[i].key) == from + i
  }

  lemma RankedConcat(a: seq<Field>, b: seq<Field>, from: nat)
    requires Ranked(a, from) && Ranked(b, from + |a|)
    ensures Ranked(a + b, from)
  {
    hide Rank;
  }

  lemma HeaderRanked(s: Stamp, etype: string, name: string, phase: string)
    ensures Ranked(Header(s, etype, name, phase), 0)
  {
    hide Decimal, SignedDecimal;
  }

  lemma CallRanked(e: Entry)
    ensures Ranked(CallFields(e), 9)
  {
    hide Decimal, SignedDecimal;
  }

  lemma ResultRanked(ret: int, hasPayload: bool, p: Option<PayloadRef>)
    ensures Ranked(ResultFields(ret, hasPayload), 17) && Ranked(PayloadFields(p), 19)
  {
    hide Decimal, SignedDecimal, ErrnoOf;
  }

  lemma SyscallRanked(e: Event)
    requires e.Syscall?
    ensures Ranked(BodyFields(e), 0) && |BodyFields(e)| == if e.payload.Some? then 25 else 19
  {
    hide Ranked, SyscallName, Header, CallFields, ResultFields, PayloadFields;
    var h, c := Header(e.stamp, "SYSCALL", SyscallName(e.entry.no), "exit"), CallFields(e.entry);
    var r, p := ResultFields(e.ret, e.payload.Some?), PayloadFields(e.payload);
    HeaderRanked(e.stamp, "SYSCALL", SyscallName(e.entry.no), "exit");
    CallRanked(e.entry);
    ResultRanked(e.ret, e.payload.Some?, e.payload);
    PartSizes(e);
    RankedConcat(h, c, 0);
    RankedConcat(h + c, r, 0);
    RankedConcat(h + c + r, p, 0);
  }

  lemma PartSizes(e: Event)
    requires e.Syscall?
    ensures |Header(e.stamp, "SYSCALL", SyscallName(e.entry.no), "exit")| == 9 && |CallFields(e.entry)| == 8
    ensures |ResultFields(e.ret, e.payload.Some?)| == 2
    ensures |PayloadFields(e.payload)| == if e.payload.Some? then 6 else 0
  {
    hide Decimal, SignedDecimal, SyscallName, ErrnoOf;
  }

  lemma SyscallShape(e: Event)
    requires e.Syscall?
    ensures var fs := BodyFields(e);
            && |fs| == (if e.payload.Some? then 25 else 19)
            && fs[6] == Str(Etype, "SYSCALL", ",") && fs[7] == Str(Name, SyscallName(e.entry.no), ",")
            && fs[10] == Num(SyscallNo, SignedDecimal(e.entry.no) + ",")
            && fs[17] == Num(Ret, SignedDecimal(e.ret) + ",")
  {
    hide Decimal, SignedDecimal, SyscallName, ErrnoOf, PayloadFields;
    PartSizes(e);
    var h, c := Header(e.stamp, "SYSCALL", SyscallName(e.entry.no), "exit"), CallFields(e.entry);
    var r, p := ResultFields(e.ret, e.payload.Some?), PayloadFields(e.payload);
    var fs := BodyFields(e);
    assert fs[6] == h[6] && fs[7] == h[7] && fs[10] == c[1] && fs[17] == r[0];
  }

  lemma PayloadShape(e: Event)
    requires e.Syscall? && e.payload.Some?
    ensures var fs := BodyFields(e);
            && |fs| == 25
            && fs[19] == Num(PayloadRefKey, "{")
            && fs[21] == Num(Offset, SignedDecimal(e.payload.value.offset) + ",")
            && fs[22] == Num(Length, Decimal(e.payload.value.length) + ",")
            && fs[23] == Str(Sha256Key, e.payload.value.sha256, ",")
  {
    hide Decimal, SignedDecimal, SyscallName, ErrnoOf, Header, CallFields, ResultFields;
    PartSizes(e);
    var p := PayloadFields(e.payload);
    var fs := BodyFields(e);
    assert fs[19] == p[0] && fs[21] == p[2] && fs[22] == p[3] && fs[23] == p[4];
  }

  /** Searching the body for `"k":x` stops only at the field. */
  predicate Searchable(e: Event, k: Key, x: string) {
    && IsSearch(x) && Quiet(e.stamp.runId, k, x)
    && (e.Process? ==> Lacks(e.name, '"') && Quiet(e.target, k, x))
    && (e.Syscall? && e.payload.Some? ==> Lacks(e.payload.value.sha256, '"'))
  }

  lemma CleanConcat(a: seq<Field>, b: seq<Field>, k: Key, x: string)
    requires AllClean(a, k, x) && AllClean(b, k, x)
    ensures AllClean(a + b, k, x)
  {
    hide Field.Clean;
  }

  lemma TargetClean(target: string, k: Key, x: string)
    requires Quiet(target, k, x)
    ensures AllClean([Num(EventText.Args, "{"), Str(Target, target, "}")], k, x)
  {
    hide Quiet;
  }

  lemma BodyClean(e: Event, k: Key, x: string)
    requires Searchable(e, k, x)
    ensures AllClean(BodyFields(e), k, x)
  {
    hide SyscallName, Quiet, Header, CallFields, ResultFields, PayloadFields, AllClean;
    if e.Syscall? {
      var h, c := Header(e.stamp, "SYSCALL", SyscallName(e.entry.no), "exit"), CallFields(e.entry);
      var r, p := ResultFields(e.ret, e.payload.Some?), PayloadFields(e.payload);
      NameClean(e.entry.no);
      HeaderClean(e.stamp, "SYSCALL", SyscallName(e.entry.no), "exit", k, x);
      CallClean(e.entry, k, x);
      ResultClean(e.ret, e.payload.Some?, k, x);
      PayloadClean(e.payload, k, x);
      CleanConcat(h, c, k, x);
      CleanConcat(h + c, r, k, x);
      CleanConcat(h + c + r, p, k, x);
    } else {
      HeaderClean(e.stamp, "PROCESS", e.name, "instant", k, x);
      TargetClean(e.target, k, x);
      CleanConcat(Header(e.stamp, "PROCESS", e.name, "instant"),
                  [Num(EventText.Args, "{"), Str(Target, e.target, "}")], k, x);
    }
  }

  /** The rest of a line after its body. */
  function TailText(prevHash: string, eventHash: string): string {
    "," + RenderAll(ChainFields(prevHash, eventHash)) + "\n"
  }

  lemma NotInTail(prevHash: string, eventHash: string, k: Key, x: string)
    requires Lacks(prevHash, '"') && Lacks(eventHash, '"') && k != PrevHash && k != EventHash && IsSearch(x)
    ensures FindAfter(TailText(prevHash, eventHash), Needle(k, x)) == None
  {
    var fs, n := ChainFields(prevHash, eventHash), Needle(k, x);
    NeedleFirst(k, x);
    ChainClean(prevHash, eventHash, k, x);
    TailParts(prevHash, eventHash);
    hide FindAfter, KeyText, Needle, RenderAll, EventText.After, IsSearch, TailText, AllClean;
    FindSkips(",", RenderAll(fs) + "\n", n);
    FindInFields(fs, "\n", k, x);
    AfterAbsent(fs, "\n", k, x);
    FindSkips("\n", "", n);
    assert "\n" + "" == "\n";
    FindNothing(n);
  }

  lemma ChainClean(prevHash: string, eventHash: string, k: Key, x: string)
    requires Lacks(prevHash, '"') && Lacks(eventHash, '"')
    ensures AllClean(ChainFields(prevHash, eventHash), k, x)
  {
    hide Quiet;
    PlainQuiet(prevHash, k, x);
    PlainQuiet(eventHash, k, x);
  }

  lemma TailParts(prevHash: string, eventHash: string)
    ensures TailText(prevHash, eventHash) == "," + (RenderAll(ChainFields(prevHash, eventHash)) + "\n")
  {
    hide RenderAll;
  }

  lemma FindNothing(needle: string)
    requires needle != ""
    ensures FindAfter("", needle) == None
  {
  }

  /** Searching a printed line for a key looks it up among the body's fields. */
  lemma FindInLine(e: Event, prevHash: string, eventHash: string, k: Key, x: string)
    requires Searchable(e, k, x) && Fits(e)
    ensures FindAfter(LineText(Body(e), prevHash, eventHash), Needle(k, x))
            == After(BodyFields(e), TailText(prevHash, eventHash), k, x)
  {
    hide FindAfter, BodyFields, ChainFields, RenderAll, KeyText, Needle, Body, Quiet, After, IsSearch;
    NeedleFirst(k, x);
    BodyClean(e, k, x);
    var fs, z := BodyFields(e), TailText(prevHash, eventHash);
    assert LineText(Body(e), prevHash, eventHash) == "{" + (RenderAll(fs) + z);
    FindSkips("{", RenderAll(fs) + z, Needle(k, x));
    FindInFields(fs, z, k, x);
  }

  /** A numeric field of the body is read back as the number printed. */
  lemma ReadNumber(e: Event, prevHash: string, eventHash: string, i: nat, n: int, sep: string)
    requires Fits(e) && e.Syscall? && i < |BodyFields(e)| && IsLong(n) && Searchable(e, BodyFields(e)[i].key, "")
    requires BodyFields(e)[i] == Num(BodyFields(e)[i].key, SignedDecimal(n) + sep) && sep != "" && !IsDigit(sep[0])
    ensures ParseField(LineText(Body(e), prevHash, eventHash), BodyFields(e)[i].key) == Some(n)
  {
    hide FindAfter, BodyFields, SignedDecimal, ParseLong, RenderAll, KeyText, Needle, Rank, TailText, LineText;
    hide Body, Searchable, After;
    SyscallRanked(e);
    var fs, z := BodyFields(e), TailText(prevHash, eventHash);
    FindInLine(e, prevHash, eventHash, fs[i].key, "");
    AfterAt(fs, z, fs[i].key, "", i);
    var rest := RenderAll(fs[i + 1..]) + z;
    ParsePrinted(n, sep + rest);
    assert fs[i].Value() + rest == SignedDecimal(n) + (sep + rest);
    assert (fs[i].Value() + rest)[0..] == fs[i].Value() + rest;
  }

  /** A string field of the body is read back up to the buffer's size. */
  lemma ReadText(e: Event, prevHash: string, eventHash: string, i: nat, size: nat)
    requires Fits(e) && e.Syscall? && i < |BodyFields(e)| && Searchable(e, BodyFields(e)[i].key, "\"")
    requires BodyFields(e)[i].Str? && size > |BodyFields(e)[i].text| && Lacks(BodyFields(e)[i].text, '"')
    ensures ParseText(LineText(Body(e), prevHash, eventHash), BodyFields(e)[i].key, size)
            == Some(BodyFields(e)[i].text)
  {
    hide FindAfter, BodyFields, Before, RenderAll, KeyText, Needle, Rank, TailText, LineText;
    hide Body, Searchable, After;
    SyscallRanked(e);
    var fs, z := BodyFields(e), TailText(prevHash, eventHash);
    var f := fs[i];
    FindInLine(e, prevHash, eventHash, f.key, "\"");
    var rest := RenderAll(fs[i + 1..]) + z;
    assert f.Value() + rest == "\"" + (f.text + "\"" + (f.sep + rest));
    AfterAt(fs, z, f.key, "\"", i);
    assert (f.Value() + rest)[1..] == f.text + ['"'] + (f.sep + rest);
    BeforeFirst(f.text, '"', f.sep + rest);
  }

  lemma FieldAbsent(e: Event, prevHash: string, eventHash: string, k: Key, x: string)
    requires Searchable(e, k, x) && Fits(e) && e.Syscall? && e.payload.None?
    requires Lacks(prevHash, '"') && Lacks(eventHash, '"')
    requires k == Offset || k == Length || k == Sha256Key
    ensures FindAfter(LineText(Body(e), prevHash, eventHash), Needle(k, x)) == None
  {
    hide FindAfter, BodyFields, RenderAll, TailText, LineText, Body, After, Quiet;
    SyscallRanked(e);
    FindInLine(e, prevHash, eventHash, k, x);
    AfterAbsent(BodyFields(e), TailText(prevHash, eventHash), k, x);
    NotInTail(prevHash, eventHash, k, x);
  }

  lemma NameShort(no: int)
    requires IsLong(no)
    ensures |SyscallName(no)| < 64
  {
    hide SignedDecimal;
    PrintedWidth(no);
  }

  /** Whatever is in front, a field that is printed is found. */
  lemma FieldFound(e: Event, prevHash: string, eventHash: string, i: nat, needle: string)
    requires Fits(e) && i < |BodyFields(e)| && needle <= BodyFields(e)[i].Render()
    ensures FindAfter(LineText(Body(e), prevHash, eventHash), needle).Some?
  {
    hide FindAfter, BodyFields, RenderAll, TailText, LineText, Body, Field.Render;
    var fs := BodyFields(e);
    var p, f, s := RenderAll(fs[..i]), fs[i].Render(), RenderAll(fs[i + 1..]);
    RenderConcat(fs[..i], [fs[i]] + fs[i + 1..]);
    RenderConcat([fs[i]], fs[i + 1..]);
    assert fs == fs[..i] + ([fs[i]] + fs[i + 1..]);
    OneRenders(fs[i]);
    BodyAround(e, prevHash, eventHash, p, f, s);
    var more := f[|needle|..] + s + TailText(prevHash, eventHash);
    assert "{" + p + f + s + TailText(prevHash, eventHash) == ("{" + p) + needle + more;
    FindPresent("{" + p, needle, more);
  }

  lemma OneRenders(f: Field)
    ensures RenderAll([f]) == f.Render()
  {
    hide Field.Render;
    assert [f][1..] == [] && f.Render() + "" == f.Render();
  }

  lemma BodyAround(e: Event, prevHash: string, eventHash: string, p: string, f: string, s: string)
    requires Fits(e) && RenderAll(BodyFields(e)) == p + (f + s)
    ensures LineText(Body(e), prevHash, eventHash) == "{" + p + f + s + TailText(prevHash, eventHash)
  {
    hide RenderAll, BodyFields, Body;
  }

  lemma EtypeFound(e: Event, prevHash: string, eventHash: string)
    requires Fits(e) && e.Syscall?
    ensures FindAfter(LineText(Body(e), prevHash, eventHash), Needle(Etype, "\"SYSCALL\"")).Some?
  {
    hide FindAfter, BodyFields, TailText, LineText, Body, SyscallName, SignedDecimal;
    SyscallShape(e);
    FieldFound(e, prevHash, eventHash, 6, Needle(Etype, "\"SYSCALL\""));
  }

  lemma PayloadRefFound(e: Event, prevHash: string, eventHash: string)
    requires Fits(e) && e.Syscall? && e.payload.Some?
    ensures FindAfter(LineText(Body(e), prevHash, eventHash), "\"" + KeyText(PayloadRefKey) + "\"").Some?
  {
    hide FindAfter, BodyFields, TailText, LineText, Body, SyscallName, SignedDecimal, Decimal;
    PayloadShape(e);
    FieldFound(e, prevHash, eventHash, 19, "\"" + KeyText(PayloadRefKey) + "\"");
  }

  /** Parsing the line a syscall event prints recovers the event, and keeps it exactly when the
      queue wants it. */
  lemma SyscallLineRoundTrip(e: Event, prevHash: string, eventHash: string)
    requires Parseable(e) && Fits(e) && e.Syscall? && Lacks(prevHash, '"') && Lacks(eventHash, '"')
    ensures ParseLine(LineText(Body(e), prevHash, eventHash)) == QueueEntry(e)
  {
    hide FindAfter, BodyFields, SignedDecimal, Decimal, LineText, SyscallName, ParseField, ParseText, Quiet;
    hide Body;
    SyscallShape(e);
    NameClean(e.entry.no);
    EtypeFound(e, prevHash, eventHash);
    ReadNumber(e, prevHash, eventHash, 10, e.entry.no, ",");
    ReadNumber(e, prevHash, eventHash, 17, e.ret, ",");
    NameShort(e.entry.no);
    ReadText(e, prevHash, eventHash, 7, 64);
    match e.payload
    case None =>
      AbsentReads(e, prevHash, eventHash);
    case Some(p) =>
      PayloadShape(e);
      PayloadRefFound(e, prevHash, eventHash);
      ReadNumber(e, prevHash, eventHash, 21, p.offset, ",");
      LengthIsSigned(p.length);
      ReadNumber(e, prevHash, eventHash, 22, p.length, ",");
      ReadText(e, prevHash, eventHash, 23, 65);
  }

  lemma LengthIsSigned(n: nat)
    ensures Decimal(n) == SignedDecimal(n)
  {
  }

  lemma AbsentReads(e: Event, prevHash: string, eventHash: string)
    requires Parseable(e) && Fits(e) && e.Syscall? && e.payload.None?
    requires Lacks(prevHash, '"') && Lacks(eventHash, '"')
    ensures var line := LineText(Body(e), prevHash, eventHash);
            && ParseField(line, Offset) == None && ParseField(line, Length) == None
            && ParseText(line, Sha256Key, 65) == None
  {
    hide FindAfter, BodyFields, Quiet, Body, LineText;
    FieldAbsent(e, prevHash, eventHash, Offset, "");
    FieldAbsent(e, prevHash, eventHash, Length, "");
    FieldAbsent(e, prevHash, eventHash, Sha256Key, "\"");
  }

  /** A process line, cut or whole, does not look like a syscall event anywhere. */
  lemma ProcessUnmarked(e: Event, prevHash: string, eventHash: string)
    requires Parseable(e) && e.Process? && Lacks(prevHash, '"') && Lacks(eventHash, '"')
    ensures FindAfter(LineText(Body(e), prevHash, eventHash), Needle(Etype, "\"SYSCALL\"")) == None
  {
    hide FindAfter, LineText, BodyFields, Header, RenderAll, Needle, KeyText, TailText, Rank, Body, FullBody, After;
    hide Quiet;
    var fs, x, tail := BodyFields(e), "\"SYSCALL\"", TailText(prevHash, eventHash);
    var n := Needle(Etype, x);
    BodyClean(e, Etype, x);
    FindInFields(fs, "", Etype, x);
    ProcessShape(e);
    assert (fs[6].Value() + (RenderAll(fs[7..]) + ""))[1] == 'P' && x[1] == 'S';
    AfterAbsent(fs, "", Etype, x);
    NeedleFirst(Etype, x);
    FindNothing(n);
    CutBody(e, prevHash, eventHash);
    FindSkips("{", RenderAll(fs) + "", n);
    assert "{" + (RenderAll(fs) + "") == Body(e) + FullBody(e)[|Body(e)|..];
    FindInParts(Body(e), FullBody(e)[|Body(e)|..], n);
    NeedleLacks(Etype, x, ',');
    FindAcross(Body(e), tail, n);
    NotInTail(prevHash, eventHash, Etype, x);
  }

  /** What the buffers leave is the front of the body; all of it if both have room. */
  lemma BodyIsFront(e: Event)
    ensures Body(e) <= FullBody(e)
    ensures e.Process? ==> Body(e) == Snprintf(4096, FullBody(e))
    ensures e.Syscall? && |RenderAll(PayloadFields(e.payload))| < 512 ==> Body(e) == Snprintf(8192, FullBody(e))
  {
    hide Header, CallFields, ResultFields, PayloadFields, RenderAll, SyscallName;
    if e.Syscall? {
      var front := Header(e.stamp, "SYSCALL", SyscallName(e.entry.no), "exit") + CallFields(e.entry)
                   + ResultFields(e.ret, e.payload.Some?);
      RenderConcat(front, PayloadFields(e.payload));
      var p := RenderAll(PayloadFields(e.payload));
      assert FullBody(e) == "{" + RenderAll(front) + p;
      PrefixBehind("{" + RenderAll(front), PayloadJson(e.payload), p);
    }
  }

  lemma PrefixBehind(a: string, b: string, c: string)
    requires b <= c
    ensures a + b <= a + c
  {
    assert c == b + c[|b|..];
    assert a + c == (a + b) + c[|b|..];
  }

  lemma CutBody(e: Event, prevHash: string, eventHash: string)
    ensures Body(e) <= FullBody(e) == "{" + RenderAll(BodyFields(e))
    ensures LineText(Body(e), prevHash, eventHash) == Body(e) + TailText(prevHash, eventHash)
    ensures TailText(prevHash, eventHash) != "" && TailText(prevHash, eventHash)[0] == ','
  {
    hide BodyFields, RenderAll, Body;
    BodyIsFront(e);
  }

  /** A process line puts nothing in the queue. */
  lemma ProcessLineIgnored(e: Event, prevHash: string, eventHash: string)
    requires Parseable(e) && e.Process? && Lacks(prevHash, '"') && Lacks(eventHash, '"')
    ensures ParseLine(LineText(Body(e), prevHash, eventHash)) == QueueEntry(e) == None
  {
    hide FindAfter, LineText, Body, Quiet;
    ProcessUnmarked(e, prevHash, eventHash);
  }

  lemma ProcessShape(e: Event)
    requires e.Process?
    ensures var fs := BodyFields(e);
            && |fs| == 11 && fs[6] == Str(Etype, "PROCESS", ",")
            && forall i :: 0 <= i < 11 && fs[i].key == Etype ==> i == 6
  {
    hide Decimal, SignedDecimal;
    var h := Header(e.stamp, "PROCESS", e.name, "instant");
    HeaderRanked(e.stamp, "PROCESS", e.name, "instant");
    assert forall i :: 0 <= i < 9 ==> BodyFields(e)[i] == h[i];
  }

  /** Event lines round-trip: what the loader keeps of a printed line is what the queue should hold. */
  lemma EventLineRoundTrip(e: Event, prevHash: string, eventHash: string)
    requires Parseable(e) && (e.Syscall? ==> Fits(e)) && Lacks(prevHash, '"') && Lacks(eventHash, '"')
    ensures ParseLine(LineText(Body(e), prevHash, eventHash)) == QueueEntry(e)
  {
    if e.Syscall? {
      SyscallLineRoundTrip(e, prevHash, eventHash);
    } else {
      ProcessLineIgnored(e, prevHash, eventHash);
    }
  }
}
