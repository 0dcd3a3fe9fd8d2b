/** The lines of every recording and every replay: whose events they are, how wide their numbers get,
    and so what the loader, the verifier and the analyzer read back from the file. */
module TraceShape {
  import opened CText
  import opened Sha256
  import opened EventText
  import opened TraceEvent
  import opened TraceLog
  import opened HashChain
  import opened ChildMemory
  import opened JsonText
  import opened ReplayQueue
  import opened Ptrace
  import opened Recorder
  import opened Replayer
  import opened TraceReader
  import opened EventDecode
  import opened TraceText
  import opened TraceBounds
  import Hash

  // ---------- one writer ----------

  /** A line a tracer called runId writes for target, or a hook line of the given kind. */
  ghost predicate LineShaped(l: Line, runId: string, target: string, kind: HookEvent -> bool) {
    match l
    case Own(e, prevHash, eventHash) =>
      && Typed(e) && e.stamp.runId == runId && (e.Process? ==> e.target == target)
      && IsHex(prevHash) && IsHex(eventHash)
    case Hook(h) => kind(h)
  }

  ghost predicate Shaped(lines: seq<Line>, runId: string, target: string, kind: HookEvent -> bool) {
    forall i :: 0 <= i < |lines| ==> LineShaped(lines[i], runId, target, kind)
  }

  ghost predicate WriterShaped(w: Writer, target: string, kind: HookEvent -> bool) {
    Shaped(w.lines, w.runId, target, kind) && IsInt(w.pid) && IsHex(w.prevHash)
  }

  lemma EmitShaped(w: Writer, e: Event, target: string, kind: HookEvent -> bool)
    requires WriterShaped(w, target, kind) && Typed(e) && e.stamp.runId == w.runId
    requires e.Process? ==> e.target == target
    ensures WriterShaped(Emit(w, e), target, kind)
    ensures Emit(w, e).runId == w.runId && Emit(w, e).seqNo == w.seqNo && Emit(w, e).payload == w.payload
  {
    hide ChainHash, Typed, Body;
    var h := ChainHash(w.prevHash, Body(e));
    assert IsHex(h) && LineShaped(Own(e, w.prevHash, h), w.runId, target, kind);
  }

  lemma NumberedShaped(w: Writer, payload: seq<byte>, target: string, kind: HookEvent -> bool)
    requires WriterShaped(w, target, kind)
    ensures WriterShaped(w.(seqNo := w.seqNo + 1, payload := payload), target, kind)
  {
    hide Shaped;
  }

  lemma HooksShaped(w: Writer, hooks: seq<HookEvent>, target: string, kind: HookEvent -> bool)
    requires WriterShaped(w, target, kind) && forall i :: 0 <= i < |hooks| ==> kind(hooks[i])
    ensures WriterShaped(AppendHooks(w, hooks), target, kind)
  {
    hide Typed, IsHex;
  }

  lemma ProcessShaped(w: Writer, now: nat, name: string, target: string, kind: HookEvent -> bool)
    requires WriterShaped(w, target, kind) && IsULong(now) && IsULong(w.seqNo + 1) && TracerName(name)
    ensures var v := EmitProcess(w, now, name, target);
            && WriterShaped(v, target, kind) && v.runId == w.runId && v.seqNo == w.seqNo + 1 && v.payload == w.payload
  {
    hide Emit, WriterShaped, TracerName;
    NumberedShaped(w, w.payload, target, kind);
    WriterPid(w, target, kind);
    EmitShaped(w.(seqNo := w.seqNo + 1), Process(NextStamp(w, now), name, target), target, kind);
  }

  lemma WriterPid(w: Writer, target: string, kind: HookEvent -> bool)
    requires WriterShaped(w, target, kind)
    ensures IsInt(w.pid)
  {
    hide Shaped;
  }

  lemma SyscallShaped(w: Writer, payload: seq<byte>, now: nat, entry: Entry, ret: int, p: Option<PayloadRef>,
                      target: string, kind: HookEvent -> bool)
    requires WriterShaped(w, target, kind) && IsULong(now) && IsULong(w.seqNo + 1)
    requires EntryTyped(entry) && IsLong(ret) && (p.Some? ==> RefTyped(p.value))
    ensures var v := EmitSyscall(w.(payload := payload), now, entry, ret, p);
            && WriterShaped(v, target, kind) && v.runId == w.runId && v.seqNo == w.seqNo + 1 && v.payload == payload
  {
    hide Emit, WriterShaped, RefTyped, EntryTyped;
    NumberedShaped(w, payload, target, kind);
    WriterPid(w, target, kind);
    var u := w.(payload := payload);
    EmitShaped(u.(seqNo := u.seqNo + 1), Syscall(NextStamp(u, now), entry, ret, p), target, kind);
  }

  // ---------- the stops ----------

  ghost predicate TickTyped(t: Tick, kind: HookEvent -> bool) {
    && IsULong(t.now) && (forall i :: 0 <= i < |t.hooks| ==> kind(t.hooks[i]))
    && (t.stop.SyscallStop? ==>
      IsLong(t.stop.regs.origRax) && IsLong(t.stop.regs.rax) && ArgsTyped(t.stop.regs.args))
  }

  /** Numbers fit their C types and every hook line is of the given kind. */
  ghost predicate RunTyped(pid: int, now: nat, ticks: seq<Tick>, kind: HookEvent -> bool) {
    && IsInt(pid) && IsULong(now) && IsULong(|ticks| + 1)
    && (forall i :: 0 <= i < |ticks| ==> TickTyped(ticks[i], kind))
  }

  // ---------- every recording ----------

  ghost predicate StateShaped(s: State, kind: HookEvent -> bool) {
    WriterShaped(s.w, s.target, kind) && EntryTyped(s.entry)
  }

  lemma HexIsHex(data: seq<byte>)
    ensures IsHex(Hash.HexDigest(data)) && |Hash.HexDigest(data)| == 64
  {
  }

  lemma ExitShaped(s: State, now: nat, ret: int, mem: Memory, copied: nat, kind: HookEvent -> bool)
    requires StateShaped(s, kind) && IsULong(now) && IsLong(ret) && IsULong(s.w.seqNo + 1)
    requires |AtExit(s, now, ret, mem, copied).w.payload| <= LONG_MAX
    ensures var v := AtExit(s, now, ret, mem, copied);
            StateShaped(v, kind) && v.w.runId == s.w.runId && v.w.seqNo == s.w.seqNo + 1
  {
    hide EmitSyscall, WriterShaped, EntryTyped, CallData, Hash.HexDigest;
    match CallData(s.entry, ret, mem, copied)
    case None =>
      SyscallShaped(s.w, s.w.payload, now, s.entry, ret, None, s.target, kind);
    case Some(data) =>
      HexIsHex(data);
      var ref := PayloadRef(|s.w.payload|, |data|, Hash.HexDigest(data));
      PayloadAfter(s.w.(payload := s.w.payload + data), now, s.entry, ret, Some(ref));
      SyscallShaped(s.w, s.w.payload + data, now, s.entry, ret, Some(ref), s.target, kind);
  }

  lemma PayloadAfter(w: Writer, now: nat, entry: Entry, ret: int, p: Option<PayloadRef>)
    ensures EmitSyscall(w, now, entry, ret, p).payload == w.payload
  {
    hide ChainHash, Body;
  }

  lemma StepShaped(s: State, t: Tick, kind: HookEvent -> bool)
    requires StateShaped(s, kind) && !s.done && TickTyped(t, kind) && IsULong(s.w.seqNo + 1)
    requires |Step(s, t).w.payload| <= LONG_MAX
    ensures var v := Step(s, t);
            StateShaped(v, kind) && v.w.seqNo <= s.w.seqNo + 1 && v.w.runId == s.w.runId && v.target == s.target
  {
    hide EmitProcess, AtExit, WriterShaped, TracerName;
    HooksShaped(s.w, t.hooks, s.target, kind);
    NamesAreTracers();
    var v := s.(w := AppendHooks(s.w, t.hooks));
    match t.stop
    case Exited(code) =>
      ProcessShaped(v.w, t.now, "program_exit", s.target, kind);
    case Signaled(signal) =>
      ProcessShaped(v.w, t.now, "program_signal", s.target, kind);
    case SyscallStop(regs, mem, copied) =>
      if s.inSyscall {
        ExitShaped(v, t.now, regs.rax, mem, copied, kind);
        ExitTarget(v, t.now, regs.rax, mem, copied);
      }
    case _ =>
  }

  lemma ExitTarget(s: State, now: nat, ret: int, mem: Memory, copied: nat)
    ensures AtExit(s, now, ret, mem, copied).target == s.target
  {
    hide EmitSyscall, CallData, Hash.HexDigest;
  }

  lemma NamesAreTracers()
    ensures TracerName("program_start") && TracerName("program_exit") && TracerName("program_signal")
  {
  }

  lemma StepKeepsPayload(s: State, t: Tick)
    ensures |s.w.payload| <= |Step(s, t).w.payload|
  {
    hide ChainHash, CallData, Hash.HexDigest, Body;
  }

  lemma {:induction false} RunKeepsPayload(s: State, ticks: seq<Tick>)
    ensures |s.w.payload| <= |Run(s, ticks).w.payload|
    decreases |ticks|
  {
    hide Step;
    if ticks != [] {
      StepKeepsPayload(s, ticks[0]);
      RunKeepsPayload(Step(s, ticks[0]), ticks[1..]);
    }
  }

  lemma {:induction false} RunShaped(s: State, ticks: seq<Tick>, kind: HookEvent -> bool)
    requires StateShaped(s, kind) && (forall i :: 0 <= i < |ticks| ==> TickTyped(ticks[i], kind))
    requires IsULong(s.w.seqNo + |ticks|) && |Run(s, ticks).w.payload| <= LONG_MAX
    ensures var v := Run(s, ticks); StateShaped(v, kind) && v.w.runId == s.w.runId && v.target == s.target
    decreases |ticks|
  {
    hide Step, StateShaped, TickTyped;
    if ticks != [] {
      if s.done {
        RunDone(s, ticks);
      } else {
        assert TickTyped(ticks[0], kind);
        RunKeepsPayload(Step(s, ticks[0]), ticks[1..]);
        StepShaped(s, ticks[0], kind);
        RunShaped(Step(s, ticks[0]), ticks[1..], kind);
      }
    }
  }

  lemma EmptyWriterShaped(runId: string, pid: int, target: string, kind: HookEvent -> bool)
    requires IsInt(pid)
    ensures WriterShaped(NewWriter(runId, pid), target, kind)
  {
  }

  lemma StartShaped(runId: string, pid: int, now: nat, target: string, kind: HookEvent -> bool)
    requires IsInt(pid) && IsULong(now)
    ensures var s := Start(runId, pid, now, target);
            StateShaped(s, kind) && s.w.seqNo == 1 && s.w.runId == runId && s.target == target
  {
    hide EmitProcess, WriterShaped, TracerName;
    NamesAreTracers();
    EmptyWriterShaped(runId, pid, target, kind);
    ProcessShaped(NewWriter(runId, pid), now, "program_start", target, kind);
  }

  lemma RecordingShaped(runId: string, pid: int, now: nat, target: string, ticks: seq<Tick>, kind: HookEvent -> bool)
    requires RunTyped(pid, now, ticks, kind) && DataTotal(CallsOf(ticks, None)) <= LONG_MAX
    ensures Shaped(Run(Start(runId, pid, now, target), ticks).w.lines, runId, target, kind)
  {
    hide Run, Start, TickTyped, Shaped;
    RecordingSize(runId, pid, now, target, ticks);
    StartShaped(runId, pid, now, target, kind);
    RunShaped(Start(runId, pid, now, target), ticks, kind);
  }

  // ---------- every replay ----------

  ghost predicate QueuedTyped(q: ReplayEvent) {
    IsLong(q.ret) && (q.length > 0 ==> |q.sha256| == 64 && IsHex(q.sha256))
  }

  function QueueTotal(queue: seq<ReplayEvent>): nat {
    if queue == [] then 0 else QueueTotal(queue[..|queue| - 1]) + queue[|queue| - 1].length
  }

  /** A queue as recordings leave it: together its payloads fit a file. */
  ghost predicate QueueTyped(queue: seq<ReplayEvent>) {
    (forall i :: 0 <= i < |queue| ==> QueuedTyped(queue[i])) && QueueTotal(queue) <= LONG_MAX
  }

  lemma {:induction false} QueueTotalPrefix(queue: seq<ReplayEvent>, k: nat)
    requires k <= |queue|
    ensures QueueTotal(queue[..k]) <= QueueTotal(queue)
  {
    if k == |queue| {
      assert queue[..k] == queue;
    } else {
      var p := queue[..|queue| - 1];
      assert p[..k] == queue[..k];
      QueueTotalPrefix(p, k);
    }
  }

  lemma QueueTotalNext(queue: seq<ReplayEvent>, k: nat)
    requires k < |queue|
    ensures QueueTotal(queue[..k + 1]) == QueueTotal(queue[..k]) + queue[k].length
  {
    assert queue[..k + 1][..k] == queue[..k];
  }

  ghost predicate RStateShaped(s: RState, kind: HookEvent -> bool) {
    && WriterShaped(s.w, s.target, kind) && EntryTyped(s.entry) && QueueTyped(s.queue) && s.cursor <= |s.queue|
    && (s.inSyscall && s.active.Some? ==> s.cursor < |s.queue| && s.active.value == s.queue[s.cursor])
    && |s.w.payload| <= QueueTotal(s.queue[..s.cursor])
  }

  lemma RExitShaped(s: RState, now: nat, ret: int, kind: HookEvent -> bool)
    requires RStateShaped(s, kind) && s.inSyscall && IsULong(now) && IsLong(ret) && IsULong(s.w.seqNo + 1)
    ensures var v := OnExit(s, now, ret);
            && RStateShaped(v, kind) && v.w.seqNo == s.w.seqNo + 1 && v.w.runId == s.w.runId && v.target == s.target
  {
    hide EmitSyscall, WriterShaped, EntryTyped, QueueTotal;
    match s.active
    case None =>
      SyscallShaped(s.w, s.w.payload, now, s.entry, ret, None, s.target, kind);
    case Some(a) =>
      assert QueuedTyped(s.queue[s.cursor]);
      QueueTotalNext(s.queue, s.cursor);
      QueueTotalPrefix(s.queue, s.cursor + 1);
      var buf := ReadPayload(s.store, a.offset, a.length);
      var keeps := buf.Some? && a.length > 0;
      var payload := if keeps then s.w.payload + buf.value else s.w.payload;
      var r := if buf.Some? then a.ret else ret;
      SyscallShaped(s.w, payload, now, s.entry, r, SourceRef(Some(a), payload), s.target, kind);
  }

  lemma RStepShaped(s: RState, t: Tick, kind: HookEvent -> bool)
    requires RStateShaped(s, kind) && !s.done && TickTyped(t, kind) && IsULong(s.w.seqNo + 1)
    ensures var v := RStep(s, t);
            RStateShaped(v, kind) && v.w.seqNo <= s.w.seqNo + 1 && v.w.runId == s.w.runId && v.target == s.target
  {
    hide EmitProcess, OnExit, WriterShaped, TracerName, QueueTyped, QueueTotal;
    HooksShaped(s.w, t.hooks, s.target, kind);
    NamesAreTracers();
    var v := s.(w := AppendHooks(s.w, t.hooks));
    match t.stop
    case Exited(code) =>
      ProcessShaped(v.w, t.now, "program_exit", s.target, kind);
    case Signaled(signal) =>
      ProcessShaped(v.w, t.now, "program_signal", s.target, kind);
    case SyscallStop(regs, mem, copied) =>
      if s.inSyscall {
        RExitShaped(v, t.now, regs.rax, kind);
      }
    case _ =>
  }

  lemma {:induction false} RRunShaped(s: RState, ticks: seq<Tick>, kind: HookEvent -> bool)
    requires RStateShaped(s, kind) && (forall i :: 0 <= i < |ticks| ==> TickTyped(ticks[i], kind))
    requires IsULong(s.w.seqNo + |ticks|)
    ensures var v := RRun(s, ticks); RStateShaped(v, kind) && v.w.runId == s.w.runId && v.target == s.target
    decreases |ticks|
  {
    hide RStep, RStateShaped, TickTyped;
    if ticks != [] {
      if s.done {
        RRunDone(s, ticks);
      } else {
        assert TickTyped(ticks[0], kind);
        RStepShaped(s, ticks[0], kind);
        RRunShaped(RStep(s, ticks[0]), ticks[1..], kind);
      }
    }
  }

  lemma BeginShaped(runId: string, pid: int, now: nat, target: string, queue: seq<ReplayEvent>, store: seq<byte>,
                    kind: HookEvent -> bool)
    requires IsInt(pid) && IsULong(now) && QueueTyped(queue)
    ensures var s := Begin(runId, pid, now, target, queue, store);
            RStateShaped(s, kind) && s.w.seqNo == 1 && s.w.runId == runId && s.target == target
  {
    hide EmitProcess, WriterShaped, TracerName, QueueTyped;
    NamesAreTracers();
    EmptyWriterShaped(runId, pid, target, kind);
    ProcessShaped(NewWriter(runId, pid), now, "program_start", target, kind);
  }

  lemma ReplayShaped(runId: string, pid: int, now: nat, target: string, queue: seq<ReplayEvent>, store: seq<byte>,
                     ticks: seq<Tick>, kind: HookEvent -> bool)
    requires RunTyped(pid, now, ticks, kind) && QueueTyped(queue)
    ensures Shaped(RRun(Begin(runId, pid, now, target, queue, store), ticks).w.lines, runId, target, kind)
  {
    hide RRun, Begin, TickTyped, Shaped, QueueTyped, QueueTotal;
    BeginShaped(runId, pid, now, target, queue, store, kind);
    RRunShaped(Begin(runId, pid, now, target, queue, store), ticks, kind);
  }

  // ---------- the queue of a recording ----------

  lemma {:induction false} OwnTyped(lines: seq<Line>, runId: string, target: string, kind: HookEvent -> bool)
    requires Shaped(lines, runId, target, kind)
    ensures forall i :: 0 <= i < |OwnEvents(lines)| ==>
              Typed(OwnEvents(lines)[i]) && OwnEvents(lines)[i].stamp.runId == runId
              && (OwnEvents(lines)[i].Process? ==> OwnEvents(lines)[i].target == target)
  {
    hide Typed, IsHex;
    if lines != [] {
      var p, l := lines[..|lines| - 1], lines[|lines| - 1];
      assert forall i :: 0 <= i < |p| ==> p[i] == lines[i];
      OwnTyped(p, runId, target, kind);
      assert LineShaped(l, runId, target, kind);
    }
  }

  lemma EntryQueuedTyped(e: Event)
    requires Typed(e) && QueueEntry(e).Some?
    ensures QueuedTyped(QueueEntry(e).value)
    ensures QueueEntry(e).value.length == if e.Syscall? && e.payload.Some? then e.payload.value.length else 0
  {
    hide SyscallName;
  }

  lemma {:induction false} QueueOfEventsTyped(events: seq<Event>)
    requires forall i :: 0 <= i < |events| ==> Typed(events[i])
    ensures forall i :: 0 <= i < |QueueOfEvents(events)| ==> QueuedTyped(QueueOfEvents(events)[i])
    ensures QueueTotal(QueueOfEvents(events)) <= PayloadEnd(events)
  {
    hide Typed, QueuedTyped, QueueEntry;
    if events != [] {
      var p, e := events[..|events| - 1], events[|events| - 1];
      assert forall i :: 0 <= i < |p| ==> p[i] == events[i];
      QueueOfEventsTyped(p);
      var q, last := QueueOfEvents(p), QueueEntry(e);
      assert QueueOfEvents(events) == q + AsSeq(last);
      hide QueueOfEvents;
      if last.Some? {
        EntryQueuedTyped(e);
        QueueTotalAppend(q, last.value);
      } else {
        assert q + [] == q;
      }
    }
  }

  lemma QueueTotalAppend(queue: seq<ReplayEvent>, e: ReplayEvent)
    ensures QueueTotal(queue + [e]) == QueueTotal(queue) + e.length
  {
    assert (queue + [e])[..|queue|] == queue;
  }

  /** What a recording queues can be replayed within the same bounds. */
  lemma RecordingQueueTyped(runId: string, pid: int, now: nat, target: string, ticks: seq<Tick>,
                            kind: HookEvent -> bool)
    requires RunTyped(pid, now, ticks, kind) && DataTotal(CallsOf(ticks, None)) <= LONG_MAX
    ensures QueueTyped(QueueOfEvents(OwnEvents(Run(Start(runId, pid, now, target), ticks).w.lines)))
  {
    hide RunTyped, Run, Start, Shaped, OwnEvents, PayloadEnd, QueueOfEvents, Typed, QueuedTyped, QueueTotal, Chained;
    hide TellsAll;
    hide SyscallEvents;
    var w := Run(Start(runId, pid, now, target), ticks).w;
    RecordingShaped(runId, pid, now, target, ticks, kind);
    OwnTyped(w.lines, runId, target, kind);
    QueueOfEventsTyped(OwnEvents(w.lines));
    RecordingIsFaithful(runId, pid, now, target, ticks);
    RecordingSize(runId, pid, now, target, ticks);
  }

  // ---------- what the loader reads back ----------

  /** Names that none of the loader's searches stops in. */
  predicate LoaderNames(runId: string, target: string) {
    |runId| <= MAX_RUN_ID && Harmless(runId) && Silent(runId) && Silent(target)
  }

  /** A recording of which the loader reads back what it holds. */
  ghost predicate Within(runId: string, pid: int, now: nat, target: string, ticks: seq<Tick>) {
    && LoaderNames(runId, target) && RunTyped(pid, now, ticks, ParseableHook)
    && DataTotal(CallsOf(ticks, None)) <= LONG_MAX
  }

  lemma TypedParseable(e: Event)
    requires Typed(e) && Harmless(e.stamp.runId) && Silent(e.stamp.runId) && (e.Process? ==> Silent(e.target))
    ensures Parseable(e)
  {
    hide Quiet;
  }

  lemma ShapedParseable(l: Line, runId: string, target: string)
    requires LineShaped(l, runId, target, ParseableHook) && LoaderNames(runId, target)
    ensures ParseableLine(l)
  {
    hide Harmless, Silent, Typed, ParseableHook, Fits, Parseable, Digits, Material, Body;
    if l.Own? {
      NothingTruncated(l.event);
      TypedParseable(l.event);
      HexPlain(l.prevHash);
      HexPlain(l.eventHash);
    }
  }

  lemma {:induction false} LoadOfShaped(lines: seq<Line>, runId: string, target: string)
    requires Shaped(lines, runId, target, ParseableHook) && LoaderNames(runId, target)
    ensures QueueOfText(FileText(lines)) == QueueOfEvents(OwnEvents(lines))
  {
    hide QueueOfText, FileText, QueueOfEvents, OwnEvents, LineShaped, LoaderNames, ParseableLine;
    forall i | 0 <= i < |lines|
      ensures ParseableLine(lines[i])
    {
      ShapedParseable(lines[i], runId, target);
    }
    LoadOfFile(lines);
    QueueIsOfOwnEvents(lines);
  }

  /** Loading the text of a recording queues exactly the recorder's own replayable events. */
  lemma LoadOfRecording(runId: string, pid: int, now: nat, target: string, ticks: seq<Tick>)
    requires Within(runId, pid, now, target, ticks)
    ensures var w := Run(Start(runId, pid, now, target), ticks).w;
            QueueOfText(FileText(w.lines)) == QueueOfEvents(OwnEvents(w.lines))
  {
    hide RunTyped, Run, Start, QueueOfText, FileText, QueueOfEvents, OwnEvents, Shaped, LoaderNames, DataTotal, CallsOf;
    RecordingShaped(runId, pid, now, target, ticks, ParseableHook);
    LoadOfShaped(Run(Start(runId, pid, now, target), ticks).w.lines, runId, target);
  }

  // ---------- what the verifier and the analyzer read back ----------

  /** Names that can be printed between quotes as they are, and that leave every process event its room. */
  predicate LegibleNames(runId: string, target: string) {
    && Inside(runId) && Utf8(runId) && Inside(target) && Utf8(target)
    && |runId| <= MAX_RUN_ID && |runId| + |target| <= ROOM
  }

  predicate LegibleHook(h: HookEvent) { HookLegible(h) && HookUtf8(h) }

  /** A run of which the verifier and the analyzer read back what it holds. */
  ghost predicate LegibleRun(runId: string, pid: int, now: nat, target: string, ticks: seq<Tick>) {
    LegibleNames(runId, target) && RunTyped(pid, now, ticks, LegibleHook)
  }

  lemma TypedLegible(e: Event)
    requires Typed(e) && Inside(e.stamp.runId) && Utf8(e.stamp.runId)
    requires e.Process? ==> Inside(e.target) && Utf8(e.target)
    ensures EventLegible(e) && EventUtf8(e)
  {
    hide Inside, Utf8;
    if e.Syscall? && e.payload.Some? {
      HexText(e.payload.value.sha256);
    } else if e.Process? {
      TracerNameText(e.name);
    }
  }

  lemma TracerNameText(name: string)
    requires TracerName(name)
    ensures Plain(name) && Utf8(name)
  {
    hide Utf8;
    AsciiUtf8(name);
  }

  lemma ShapedReadable(l: Line, runId: string, target: string)
    requires LineShaped(l, runId, target, LegibleHook) && LegibleNames(runId, target)
    ensures Readable(l)
  {
    hide Inside, Utf8, Typed, HookLegible, HookUtf8, Fits, EventLegible, EventUtf8, IsHex, Digits, Material, Body;
    if l.Own? {
      NothingTruncated(l.event);
      TypedLegible(l.event);
      if l.event.Process? {
        RoomExactly(runId, target);
        ProcessTyped(l.event);
        assert l.event == Process(l.event.stamp, l.event.name, target);
      }
    }
  }

  lemma ProcessTyped(e: Event)
    requires Typed(e) && e.Process?
    ensures StampTyped(e.stamp) && TracerName(e.name)
  {
  }

  lemma ShapedLoads(lines: seq<Line>, runId: string, target: string, ahead: nat)
    requires Shaped(lines, runId, target, LegibleHook) && LegibleNames(runId, target)
    ensures LoadEvents(FileText(lines), ahead) == LoadQuietly(FileText(lines), ahead) == Some(View(lines))
  {
    hide LegibleNames, LineShaped, FileText, View, Readable, LoadEvents, LoadQuietly;
    forall i | 0 <= i < |lines|
      ensures Readable(lines[i])
    {
      ShapedReadable(lines[i], runId, target);
    }
    LoadOfReadable(lines, ahead);
  }

  /** The verifier and the analyzer read a recording under legible names as what its lines say. */
  lemma RecordingLoads(runId: string, pid: int, now: nat, target: string, ticks: seq<Tick>, ahead: nat)
    requires LegibleRun(runId, pid, now, target, ticks) && DataTotal(CallsOf(ticks, None)) <= LONG_MAX
    ensures var lines := Run(Start(runId, pid, now, target), ticks).w.lines;
            LoadEvents(FileText(lines), ahead) == LoadQuietly(FileText(lines), ahead) == Some(View(lines))
  {
    hide LegibleNames, RunTyped, Run, Start, Shaped, FileText, View, LoadEvents, LoadQuietly;
    RecordingShaped(runId, pid, now, target, ticks, LegibleHook);
    ShapedLoads(Run(Start(runId, pid, now, target), ticks).w.lines, runId, target, ahead);
  }

  /** The same of a replay of any such queue. */
  lemma ReplayLoads(runId: string, pid: int, now: nat, target: string, queue: seq<ReplayEvent>, store: seq<byte>,
                    ticks: seq<Tick>, ahead: nat)
    requires LegibleRun(runId, pid, now, target, ticks) && QueueTyped(queue)
    ensures var lines := RRun(Begin(runId, pid, now, target, queue, store), ticks).w.lines;
            LoadEvents(FileText(lines), ahead) == LoadQuietly(FileText(lines), ahead) == Some(View(lines))
  {
    hide LegibleNames, RunTyped, RRun, Begin, Shaped, FileText, View, LoadEvents, LoadQuietly, QueueTyped;
    ReplayShaped(runId, pid, now, target, queue, store, ticks, LegibleHook);
    ShapedLoads(RRun(Begin(runId, pid, now, target, queue, store), ticks).w.lines, runId, target, ahead);
  }

  // ---------- names that can be printed between quotes do not disturb the loader ----------

  /** An escape is the front of its text, with no quote but a leading one. */
  lemma EscapePart(t: string)
    requires ReadEscape(t).Some?
    ensures var n := |t| - |ReadEscape(t).value.rest|;
            0 < n && ReadEscape(t).value.rest == t[n..] && forall j :: 0 < j < n ==> t[j] != '"'
  {
    hide Utf8Of;
  }

  /** In such a text every quote follows a backslash. */
  lemma {:induction false} InsideQuotes(s: string, i: nat)
    requires Inside(s) && i < |s| && s[i] == '"'
    ensures i > 0 && s[i - 1] == '\\'
    decreases |s|
  {
    if s[0] == '\\' {
      EscapePart(s[1..]);
      var t := ReadEscape(s[1..]).value.rest;
      var n := |s| - |t|;
      assert t == s[n..];
      assert forall j :: 0 < j < |s| ==> s[1..][j - 1] == s[j];
      if i >= n {
        InsideQuotes(t, i - n);
      }
    } else {
      InsideQuotes(s[1..], i - 1);
    }
  }

  lemma InsideQuiet(s: string, k: Key, x: string)
    requires Inside(s)
    ensures Quiet(s, k, x)
  {
    hide KeyText, Inside, FindAfter;
    KeyTextWord(k);
    var q, word := "\"" + s + "\"", KeyText(k);
    FoundNowhere(q, Needle(k, x));
    forall i | 0 <= i <= |q|
      ensures !(Needle(k, x) <= q[i..])
    {
      var p := i + |word|;
      if p + 2 < |q| && q[p + 1] == '"' {
        assert q[p + 1] == s[p];
        InsideQuotes(s, p);
        assert q[i..][|word|] == s[p - 1] == '\\' != word[|word| - 1] == Needle(k, x)[|word|];
      } else if p + 2 < |q| {
        assert q[i..][|word| + 1] != '"' == Needle(k, x)[|word| + 1];
      }
    }
  }

  lemma LegibleNamesAreLoaders(runId: string, target: string)
    requires LegibleNames(runId, target)
    ensures LoaderNames(runId, target)
  {
    hide Inside, Quiet, Utf8;
    InsideQuiet(runId, SyscallNo, "");
    InsideQuiet(runId, Name, "\"");
    InsideQuiet(runId, Ret, "");
    InsideQuiet(runId, Offset, "");
    InsideQuiet(runId, Length, "");
    InsideQuiet(runId, Sha256Key, "\"");
    InsideQuiet(runId, Etype, "\"SYSCALL\"");
    InsideQuiet(target, Etype, "\"SYSCALL\"");
  }

  lemma LegibleHookParseable(h: HookEvent)
    requires LegibleHook(h)
    ensures ParseableHook(h)
  {
    hide Inside, Quiet, Utf8;
    InsideQuiet(h.runId, Etype, "\"SYSCALL\"");
  }

  lemma ShapedForLoader(lines: seq<Line>, runId: string, target: string)
    requires Shaped(lines, runId, target, LegibleHook)
    ensures Shaped(lines, runId, target, ParseableHook)
  {
    hide LegibleHook, ParseableHook, Typed, IsHex;
    forall i | 0 <= i < |lines|
      ensures LineShaped(lines[i], runId, target, ParseableHook)
    {
      assert LineShaped(lines[i], runId, target, LegibleHook);
      if lines[i].Hook? {
        LegibleHookParseable(lines[i].hook);
      }
    }
  }

  lemma ShapedQueue(lines: seq<Line>, runId: string, target: string)
    requires Shaped(lines, runId, target, LegibleHook) && LegibleNames(runId, target)
    ensures QueueOfText(FileText(lines)) == QueueOfEvents(OwnEvents(lines))
  {
    hide Shaped, LegibleNames, LoaderNames, QueueOfText, FileText, QueueOfEvents, OwnEvents;
    ShapedForLoader(lines, runId, target);
    LegibleNamesAreLoaders(runId, target);
    LoadOfShaped(lines, runId, target);
  }

  /** What the verifier can read the loader can. */
  lemma LegibleIsWithin(runId: string, pid: int, now: nat, target: string, ticks: seq<Tick>)
    requires LegibleRun(runId, pid, now, target, ticks) && DataTotal(CallsOf(ticks, None)) <= LONG_MAX
    ensures Within(runId, pid, now, target, ticks)
  {
    hide LegibleNames, LoaderNames, LegibleHook, ParseableHook, DataTotal, CallsOf;
    LegibleNamesAreLoaders(runId, target);
    forall i | 0 <= i < |ticks|
      ensures TickTyped(ticks[i], ParseableHook)
    {
      assert TickTyped(ticks[i], LegibleHook);
      forall k | 0 <= k < |ticks[i].hooks|
        ensures ParseableHook(ticks[i].hooks[k])
      {
        LegibleHookParseable(ticks[i].hooks[k]);
      }
    }
  }

  /** The limits can be met, by ordinary names. */
  lemma LimitsMet(runId: string, target: string)
    requires Only(runId, Ordinary) && Only(target, Ordinary) && |runId| <= MAX_RUN_ID && |runId| + |target| <= ROOM
    ensures LegibleRun(runId, 7, 0, target, [Tick(0, [], Exited(0))])
    ensures Within(runId, 7, 0, target, [Tick(0, [], Exited(0))])
  {
    hide LegibleNames, CallsOf, Ordinary;
    PlainNamesLegible(runId, target);
    NoCallsYet(Tick(0, [], Exited(0)));
    LegibleIsWithin(runId, 7, 0, target, [Tick(0, [], Exited(0))]);
  }

  lemma PlainNamesLegible(runId: string, target: string)
    requires Only(runId, Ordinary) && Only(target, Ordinary) && |runId| <= MAX_RUN_ID && |runId| + |target| <= ROOM
    ensures LegibleNames(runId, target)
  {
    PlainInside(runId);
    PlainInside(target);
    AsciiUtf8(runId);
    AsciiUtf8(target);
  }

  /** Printable ASCII that needs no escaping. */
  predicate Ordinary(c: char) { ' ' <= c <= '~' && c != '"' && c != '\\' }

  lemma NoCallsYet(t: Tick)
    requires t.stop.Exited?
    ensures CallsOf([t], None) == [] && DataTotal([]) == 0
  {
  }

  // ---------- the chain of a recording ----------

  /** The texts of a recording are bytes. */
  lemma TypedBytes(e: Event)
    requires Typed(e) && IsByteString(e.stamp.runId) && (e.Process? ==> IsByteString(e.target))
    ensures IsByteString(Body(e))
  {
    var p := (c: char) => c as nat < 256;
    hide FullBody, Body, Typed;
    assert AllowsAscii(p);
    TypedTexts(e, p);
    BodyOnly(e, p);
    BodyIsFront(e);
    assert Only(FullBody(e), p);
  }

  lemma TypedTexts(e: Event, p: char -> bool)
    requires Typed(e) && AllowsAscii(p) && Only(e.stamp.runId, p) && (e.Process? ==> Only(e.target, p))
    ensures TextsOnly(e, p)
  {
    hide StampTyped, EntryTyped;
  }

  lemma BodiesWhole(events: seq<Event>, runId: string, target: string)
    requires |runId| <= MAX_RUN_ID && IsByteString(runId) && IsByteString(target)
    requires forall i :: 0 <= i < |events| ==>
               Typed(events[i]) && events[i].stamp.runId == runId && (events[i].Process? ==> events[i].target == target)
    ensures forall i :: 0 <= i < |events| ==> Whole(Bodies(events)[i])
  {
    hide Typed, Body, IsByteString, Digits, Material;
    forall i | 0 <= i < |events|
      ensures Whole(Bodies(events)[i])
    {
      NothingTruncated(events[i]);
      TypedBytes(events[i]);
    }
  }

  /** The last hash of a recording binds it: two recordings that end in the same hash consist of the same
      event bodies, or exhibit a collision of SHA-256, whatever their names are. */
  lemma RecordingsBound(runId: string, pid: int, now: nat, target: string, ticks: seq<Tick>,
                        runId2: string, pid2: int, now2: nat, target2: string, ticks2: seq<Tick>)
    requires RunTyped(pid, now, ticks, AnyHook) && DataTotal(CallsOf(ticks, None)) <= LONG_MAX
    requires RunTyped(pid2, now2, ticks2, AnyHook) && DataTotal(CallsOf(ticks2, None)) <= LONG_MAX
    requires |runId| <= MAX_RUN_ID && IsByteString(runId) && IsByteString(target)
    requires |runId2| <= MAX_RUN_ID && IsByteString(runId2) && IsByteString(target2)
    requires Run(Start(runId, pid, now, target), ticks).w.prevHash
          == Run(Start(runId2, pid2, now2, target2), ticks2).w.prevHash
    ensures var x := Bodies(OwnEvents(Run(Start(runId, pid, now, target), ticks).w.lines));
            var y := Bodies(OwnEvents(Run(Start(runId2, pid2, now2, target2), ticks2).w.lines));
            x == y || Collision(Clash(x, y).0, Clash(x, y).1)
  {
    hide RunTyped, Run, Start, Shaped, OwnEvents, Typed, ChainRecomputes, LastHash, Body, Collision, Clash, Whole;
    hide Bodies;
    hide TellsAll, Tiled, DataTotal, CallsOf, IsByteString;
    var a := Run(Start(runId, pid, now, target), ticks).w;
    var b := Run(Start(runId2, pid2, now2, target2), ticks2).w;
    RecordingShaped(runId, pid, now, target, ticks, AnyHook);
    RecordingShaped(runId2, pid2, now2, target2, ticks2, AnyHook);
    OwnTyped(a.lines, runId, target, AnyHook);
    OwnTyped(b.lines, runId2, target2, AnyHook);
    BodiesWhole(OwnEvents(a.lines), runId, target);
    BodiesWhole(OwnEvents(b.lines), runId2, target2);
    RecordingIsFaithful(runId, pid, now, target, ticks);
    RecordingIsFaithful(runId2, pid2, now2, target2, ticks2);
    ChainBinds(Bodies(OwnEvents(a.lines)), Bodies(OwnEvents(b.lines)));
  }

  predicate AnyHook(h: HookEvent) { true }
}
