/** events.jsonl and payload.bin as one tracer writes them: its own chained lines, the lines the
    pthread hook appends to the same file in between, and the payload bytes. */
module TraceLog {
  import opened CText
  import opened EventText
  import opened TraceEvent
  import opened HashChain
  import Hash
  import opened Sha256

  // ---------- hook lines (hooks/sync_hook.c) ----------

  datatype HookEvent = HookEvent(runId: string, seqNo: nat, timeNs: nat, pid: int, tid: int, name: string,
                                 phase: string, objectId: string, key: Key, value: nat, ret: int)

  function HookFields(h: HookEvent): seq<Field> {
    [Str(SchemaVersion, "adr.trace.v1", ","), Str(RunId, h.runId, ","), Num(Seq, Decimal(h.seqNo) + ","),
     Num(TimeNs, Decimal(h.timeNs) + ","), Num(Pid, SignedDecimal(h.pid) + ","), Num(Tid, SignedDecimal(h.tid) + ","),
     Str(Etype, "SYNC", ","), Str(Name, h.name, ","), Str(Phase, h.phase, ","), Str(ObjectId, h.objectId, ","),
     Num(EventText.Args, "{"), Num(h.key, Decimal(h.value) + "},"), Num(Ret, SignedDecimal(h.ret) + ","),
     Num(Errno, SignedDecimal(if h.ret < 0 then -h.ret else 0))]
  }

  function HookBody(h: HookEvent): string { "{" + RenderAll(HookFields(h)) }

  /** The line log_sync_event writes, unless one of its two buffers is too small for it. */
  function HookLine(h: HookEvent): (r: Option<string>)
    ensures r.Some? ==> r.value == LineText(HookBody(h), "hook", Hash.HexDigest(Bytes(HookBody(h))))
  {
    if |HookBody(h)| >= 2048 then None
    else
      var line := LineText(HookBody(h), "hook", Hash.HexDigest(Bytes(HookBody(h))));
      if |line| >= 2300 then None else Some(line)
  }

  /** What the loader needs of a hook line. */
  predicate ParseableHook(h: HookEvent) {
    && Silent(h.runId) && Lacks(h.name, '"') && Lacks(h.phase, '"') && Lacks(h.objectId, '"')
    && (h.key == ThreadPtr || h.key == Thread || h.key == Mutex || h.key == Cond)
  }

  // ---------- the chars of a body ----------

  lemma HeaderOnly(s: Stamp, etype: string, name: string, phase: string, p: char -> bool)
    requires AllowsAscii(p) && Only(s.runId, p) && Only(etype, p) && Only(name, p) && Only(phase, p)
    ensures Only(RenderAll(Header(s, etype, name, phase)), p)
  {
    hide Decimal, SignedDecimal, RenderAll;
    NumberOnly(s.seqNo, p);
    NumberOnly(s.timeNs, p);
    NumberOnly(s.pid, p);
    RenderOnly(Header(s, etype, name, phase), p);
  }

  lemma CallOnly(e: Entry, p: char -> bool)
    requires AllowsAscii(p)
    ensures Only(RenderAll(CallFields(e)), p)
  {
    hide Decimal, SignedDecimal, RenderAll;
    NumberOnly(e.no, p);
    NumberOnly(e.args[0], p);
    NumberOnly(e.args[1], p);
    NumberOnly(e.args[2], p);
    NumberOnly(e.args[3], p);
    NumberOnly(e.args[4], p);
    NumberOnly(e.args[5], p);
    RenderOnly(CallFields(e), p);
  }

  lemma ResultOnly(ret: int, r: Option<PayloadRef>, p: char -> bool)
    requires AllowsAscii(p) && (r.Some? ==> Only(r.value.sha256, p))
    ensures Only(RenderAll(ResultFields(ret, r.Some?)), p) && Only(RenderAll(PayloadFields(r)), p)
  {
    hide Decimal, SignedDecimal, RenderAll, ErrnoOf;
    NumberOnly(ret, p);
    NumberOnly(ErrnoOf(ret), p);
    if r.Some? {
      NumberOnly(r.value.offset, p);
      NumberOnly(r.value.length, p);
    }
    RenderOnly(ResultFields(ret, r.Some?), p);
    RenderOnly(PayloadFields(r), p);
  }

  lemma NameOnly(no: int, p: char -> bool)
    requires AllowsAscii(p)
    ensures Only(SyscallName(no), p)
  {
    hide SignedDecimal;
    NumberOnly(no, p);
  }

  ghost predicate TextsOnly(e: Event, p: char -> bool) {
    && Only(e.stamp.runId, p)
    && (e.Process? ==> Only(e.name, p) && Only(e.target, p))
    && (e.Syscall? && e.payload.Some? ==> Only(e.payload.value.sha256, p))
  }

  lemma BodyOnly(e: Event, p: char -> bool)
    requires AllowsAscii(p) && TextsOnly(e, p)
    ensures Only(FullBody(e), p)
  {
    hide Header, CallFields, ResultFields, PayloadFields, RenderAll, SyscallName;
    match e
    case Process(s, name, target) =>
      var rest := [Num(EventText.Args, "{"), Str(Target, target, "}")];
      HeaderOnly(s, "PROCESS", name, "instant", p);
      RenderOnly(rest, p);
      RenderConcat(Header(s, "PROCESS", name, "instant"), rest);
    case Syscall(s, entry, ret, r) =>
      var h, c, v := Header(s, "SYSCALL", SyscallName(entry.no), "exit"), CallFields(entry), ResultFields(ret, r.Some?);
      NameOnly(entry.no, p);
      HeaderOnly(s, "SYSCALL", SyscallName(entry.no), "exit", p);
      CallOnly(entry, p);
      ResultOnly(ret, r, p);
      RenderConcat(h, c);
      RenderConcat(h + c, v);
      RenderConcat(h + c + v, PayloadFields(r));
  }

  lemma HookFieldsOnly(h: HookEvent, p: char -> bool)
    requires AllowsAscii(p) && Only(h.runId, p) && Only(h.name, p) && Only(h.phase, p) && Only(h.objectId, p)
    ensures forall i :: 0 <= i < |HookFields(h)| ==> FieldOnly(HookFields(h)[i], p)
  {
    hide Decimal, SignedDecimal;
    NumberOnly(h.seqNo, p);
    NumberOnly(h.timeNs, p);
    NumberOnly(h.pid, p);
    NumberOnly(h.tid, p);
    NumberOnly(h.value, p);
    NumberOnly(h.ret, p);
    NumberOnly(if h.ret < 0 then -h.ret else 0, p);
  }

  lemma HookBodyOnly(h: HookEvent, p: char -> bool)
    requires AllowsAscii(p) && Only(h.runId, p) && Only(h.name, p) && Only(h.phase, p) && Only(h.objectId, p)
    ensures Only(HookBody(h), p)
  {
    hide HookFields, RenderAll, FieldOnly;
    HookFieldsOnly(h, p);
    RenderOnly(HookFields(h), p);
  }

  // ---------- the file ----------

  datatype Line = Own(event: Event, prevHash: string, eventHash: string) | Hook(hook: HookEvent)

  function PrintedLine(l: Line): string {
    match l
    case Own(e, prevHash, eventHash) => LineText(Body(e), prevHash, eventHash)
    case Hook(h) => OrElse(HookLine(h), "")
  }

  function FileText(lines: seq<Line>): string {
    if lines == [] then "" else PrintedLine(lines[0]) + FileText(lines[1..])
  }

  function OwnEvents(lines: seq<Line>): seq<Event> {
    if lines == [] then []
    else if lines[|lines| - 1].Own? then OwnEvents(lines[..|lines| - 1]) + [lines[|lines| - 1].event]
    else OwnEvents(lines[..|lines| - 1])
  }

  function Bodies(events: seq<Event>): (r: seq<string>)
    ensures |r| == |events| && forall i :: 0 <= i < |r| ==> r[i] == Body(events[i])
  {
    seq(|events|, i requires 0 <= i < |events| => Body(events[i]))
  }

  // ---------- the writer ----------

  datatype Writer = Writer(runId: string, pid: int, seqNo: nat, prevHash: string, lines: seq<Line>,
                           payload: seq<byte>)

  function NewWriter(runId: string, pid: int): Writer {
    Writer(runId, pid, 0, GENESIS, [], [])
  }

  function Emit(w: Writer, e: Event): Writer {
    var h := ChainHash(w.prevHash, Body(e));
    w.(lines := w.lines + [Own(e, w.prevHash, h)], prevHash := h)
  }

  function NextStamp(w: Writer, now: nat): Stamp { Stamp(w.runId, w.seqNo + 1, now, w.pid) }

  function EmitProcess(w: Writer, now: nat, name: string, target: string): Writer {
    Emit(w.(seqNo := w.seqNo + 1), Process(NextStamp(w, now), name, target))
  }

  function EmitSyscall(w: Writer, now: nat, entry: Entry, ret: int, payload: Option<PayloadRef>): Writer {
    Emit(w.(seqNo := w.seqNo + 1), Syscall(NextStamp(w, now), entry, ret, payload))
  }

  function AppendHooks(w: Writer, hooks: seq<HookEvent>): Writer {
    w.(lines := w.lines + HookLines(hooks))
  }

  function HookLines(hooks: seq<HookEvent>): (r: seq<Line>)
    ensures |r| == |hooks| && forall i :: 0 <= i < |r| ==> r[i] == Hook(hooks[i])
  {
    seq(|hooks|, i requires 0 <= i < |hooks| => Hook(hooks[i]))
  }

  /** trace_writer_t: the C struct both tracers update through a pointer. */
  class TraceWriter {
    const runId: string
    const pid: int
    var events: seq<Line>
    var payload: seq<byte>
    var seqNo: nat
    var prevHash: string

    ghost function Contents(): Writer
      reads this
    {
      Writer(runId, pid, seqNo, prevHash, events, payload)
    }

    constructor (runId: string, pid: int)
      ensures Contents() == NewWriter(runId, pid)
    {
      this.runId := runId;
      this.pid := pid;
      events := [];
      payload := [];
      seqNo := 0;
      prevHash := "00";
    }

    method EmitLine(e: Event)
      modifies this`events, this`prevHash
      ensures Contents() == Emit(old(Contents()), e)
    {
      var material := Snprintf(8192, prevHash + "|" + Body(e));
      var out := Hash.BytesHex(Bytes(material));
      var eventHash := out[..64];
      events := events + [Own(e, prevHash, eventHash)];
      prevHash := eventHash;
    }

    method EmitProcessEvent(now: nat, name: string, target: string)
      modifies this`events, this`prevHash, this`seqNo
      ensures Contents() == EmitProcess(old(Contents()), now, name, target)
    {
      hide ChainHash, Body;
      seqNo := seqNo + 1;
      EmitLine(Process(Stamp(runId, seqNo, now, pid), name, target));
    }

    method EmitSyscallEvent(now: nat, entry: Entry, ret: int, ref: Option<PayloadRef>)
      modifies this`events, this`prevHash, this`seqNo
      ensures Contents() == EmitSyscall(old(Contents()), now, entry, ret, ref)
    {
      hide ChainHash, Body;
      seqNo := seqNo + 1;
      EmitLine(Syscall(Stamp(runId, seqNo, now, pid), entry, ret, ref));
    }

    /** The traced program's hook appends to the same file. */
    method HookAppends(hooks: seq<HookEvent>)
      modifies this`events
      ensures Contents() == AppendHooks(old(Contents()), hooks)
    {
      events := events + HookLines(hooks);
    }

    /** append_payload */
    method AppendPayload(data: seq<byte>) returns (offset: int, hash: string)
      modifies this`payload
      ensures Contents() == old(Contents()).(payload := old(payload) + data)
      ensures offset == |old(payload)| && hash == Hash.HexDigest(data)
    {
      offset := |payload|;
      payload := payload + data;
      var out := Hash.BytesHex(data);
      hash := out[..64];
    }
  }

  // ---------- what every writer keeps ----------

  /** seq is exactly 1..n and the chain recomputes, hook lines set aside. */
  ghost predicate Chained(w: Writer) {
    var own := OwnEvents(w.lines);
    && w.seqNo == |own|
    && (forall i :: 0 <= i < |own| ==> own[i].stamp.seqNo == i + 1 && own[i].stamp.runId == w.runId)
    && w.prevHash == LastHash(Bodies(own))
    && ChainRecomputes(w.lines)
  }

  ghost predicate ChainRecomputes(lines: seq<Line>) {
    forall k :: 0 <= k < |lines| && lines[k].Own? ==>
      && lines[k].prevHash == LastHash(Bodies(OwnEvents(lines[..k])))
      && lines[k].eventHash == ChainHash(lines[k].prevHash, Body(lines[k].event))
  }

  lemma OwnEventsAppend(lines: seq<Line>, l: Line)
    ensures OwnEvents(lines + [l]) == if l.Own? then OwnEvents(lines) + [l.event] else OwnEvents(lines)
  {
    assert (lines + [l])[..|lines|] == lines;
  }

  lemma ChainAppend(lines: seq<Line>, l: Line)
    requires ChainRecomputes(lines)
    requires l.Own? ==>
               l.prevHash == LastHash(Bodies(OwnEvents(lines))) && l.eventHash == ChainHash(l.prevHash, Body(l.event))
    ensures ChainRecomputes(lines + [l])
  {
    hide ChainHash, LastHash, Bodies, OwnEvents, Body;
    forall k | 0 <= k < |lines + [l]|
      ensures (lines + [l])[..k] == if k < |lines| then lines[..k] else lines
    {
    }
  }

  lemma EmitKeepsChained(w: Writer, e: Event)
    requires Chained(w) && e.stamp.seqNo == w.seqNo + 1 && e.stamp.runId == w.runId
    ensures Chained(Emit(w.(seqNo := w.seqNo + 1), e))
    ensures OwnEvents(Emit(w.(seqNo := w.seqNo + 1), e).lines) == OwnEvents(w.lines) + [e]
  {
    hide ChainHash, LastHash, OwnEvents, Body;
    var l := Own(e, w.prevHash, ChainHash(w.prevHash, Body(e)));
    var own := OwnEvents(w.lines);
    OwnEventsAppend(w.lines, l);
    ChainAppend(w.lines, l);
    assert Bodies(own + [e])[..|own|] == Bodies(own);
    LastHashStep(Bodies(own), Body(e), Bodies(own + [e]));
  }

  lemma LastHashStep(bodies: seq<string>, b: string, more: seq<string>)
    requires more == bodies + [b]
    ensures LastHash(more) == ChainHash(LastHash(bodies), b)
  {
    hide ChainHash;
    assert more[..|more| - 1] == bodies;
  }

  lemma {:induction false} HooksKeepChained(w: Writer, hooks: seq<HookEvent>)
    requires Chained(w)
    ensures Chained(AppendHooks(w, hooks)) && OwnEvents(AppendHooks(w, hooks).lines) == OwnEvents(w.lines)
  {
    hide ChainHash, LastHash, OwnEvents, Body, Bodies;
    if hooks == [] {
      assert w.lines + HookLines([]) == w.lines;
    } else {
      var p := hooks[..|hooks| - 1];
      HooksKeepChained(w, p);
      var v := AppendHooks(w, p);
      assert AppendHooks(w, hooks).lines == v.lines + [Hook(hooks[|hooks| - 1])];
      OwnEventsAppend(v.lines, Hook(hooks[|hooks| - 1]));
      ChainAppend(v.lines, Hook(hooks[|hooks| - 1]));
    }
  }

  lemma NewWriterChained(runId: string, pid: int)
    ensures Chained(NewWriter(runId, pid)) && OwnEvents(NewWriter(runId, pid).lines) == []
  {
  }
}
