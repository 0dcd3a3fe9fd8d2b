/** What a tracer writes, told from the stops alone: which events, when, in whose name, and how the run is
    said to have ended. */
module Chronicle {
  import opened CText
  import opened Sha256
  import Hash
  import HashChain
  import opened ChildMemory
  import opened TraceEvent
  import opened TraceLog
  import opened ReplayQueue
  import opened Ptrace
  import opened Recorder
  import opened Replayer

  /** A line without results and hashes: a process event's name or a call's registers, and the time; or a line of
      the hook. */
  datatype Note = Said(name: string, timeNs: nat) | Called(no: int, args: Args, timeNs: nat) | Heard(hook: HookEvent)

  function NoteOf(e: Event): Note {
    match e
    case Process(s, name, _) => Said(name, s.timeNs)
    case Syscall(s, entry, _, _) => Called(entry.no, entry.args, s.timeNs)
  }

  function Notes(lines: seq<Line>): (r: seq<Note>)
    ensures |r| == |lines|
    ensures forall i :: 0 <= i < |r| ==> r[i] == if lines[i].Own? then NoteOf(lines[i].event) else Heard(lines[i].hook)
  {
    seq(|lines|, i requires 0 <= i < |lines| => if lines[i].Own? then NoteOf(lines[i].event) else Heard(lines[i].hook))
  }

  function HeardAll(hooks: seq<HookEvent>): (r: seq<Note>)
    ensures |r| == |hooks| && forall i :: 0 <= i < |r| ==> r[i] == Heard(hooks[i])
  {
    seq(|hooks|, i requires 0 <= i < |hooks| => Heard(hooks[i]))
  }

  /** The notes of a stream: at each stop first what the hook has written by then; every second syscall stop ends a
      call, and its event bears that stop's time; the end of the program is said once, and after it nothing. */
  function NotesOf(ticks: seq<Tick>, open: Option<Regs>): seq<Note>
    decreases |ticks|
  {
    if ticks == [] then []
    else
      HeardAll(ticks[0].hooks) +
      match ticks[0].stop
      case SyscallStop(regs, _, _) =>
        if open.None? then NotesOf(ticks[1..], Some(regs))
        else [Called(open.value.origRax, open.value.args, ticks[0].now)] + NotesOf(ticks[1..], None)
      case OtherStop => NotesOf(ticks[1..], open)
      case Exited(_) => [Said("program_exit", ticks[0].now)]
      case Signaled(_) => [Said("program_signal", ticks[0].now)]
      case Lost => []
  }

  /** What result.json says: an exit code as it is, and a signal as shells do. */
  function EndOf(ticks: seq<Tick>): Option<Outcome>
    decreases |ticks|
  {
    if ticks == [] then None
    else
      match ticks[0].stop
      case Exited(code) => Some(Outcome(code, 0))
      case Signaled(signal) => Some(Outcome(128 + signal, signal))
      case Lost => None
      case _ => EndOf(ticks[1..])
  }

  /** All events are this run's, process events name its target, and they are numbered from 1. */
  ghost predicate Signed(events: seq<Event>, runId: string, pid: int, target: string) {
    forall i :: 0 <= i < |events| ==>
      && events[i].stamp.runId == runId && events[i].stamp.pid == pid && events[i].stamp.seqNo == i + 1
      && (events[i].Process? ==> events[i].target == target)
  }

  ghost predicate Wrote(w: Writer, target: string, notes: seq<Note>) {
    && Chained(w) && Notes(w.lines) == notes && Signed(OwnEvents(w.lines), w.runId, w.pid, target)
  }

  lemma EmitWrites(w: Writer, target: string, notes: seq<Note>, e: Event, now: nat)
    requires Wrote(w, target, notes) && e.stamp == NextStamp(w, now) && (e.Process? ==> e.target == target)
    ensures Wrote(Emit(w.(seqNo := w.seqNo + 1), e), target, notes + [NoteOf(e)])
    ensures var v := Emit(w.(seqNo := w.seqNo + 1), e); v.runId == w.runId && v.pid == w.pid
  {
    hide Chained, OwnEvents, HashChain.ChainHash, Body;
    NumbersSoFar(w);
    EmitKeepsChained(w, e);
    var v := Emit(w.(seqNo := w.seqNo + 1), e);
    assert v.runId == w.runId && v.pid == w.pid;
    assert Notes(v.lines) == notes + [NoteOf(e)];
    hide Emit, NextStamp;
  }

  lemma NumbersSoFar(w: Writer)
    requires Chained(w)
    ensures w.seqNo == |OwnEvents(w.lines)|
  {
    hide OwnEvents, ChainRecomputes, HashChain.LastHash, Bodies;
  }

  lemma HooksWrite(w: Writer, target: string, notes: seq<Note>, hooks: seq<HookEvent>)
    requires Wrote(w, target, notes)
    ensures Wrote(AppendHooks(w, hooks), target, notes + HeardAll(hooks))
  {
    hide Chained, OwnEvents;
    HooksKeepChained(w, hooks);
    assert Notes(AppendHooks(w, hooks).lines) == notes + HeardAll(hooks);
  }

  lemma PayloadWrites(w: Writer, target: string, notes: seq<Note>, data: seq<byte>)
    requires Wrote(w, target, notes)
    ensures Wrote(w.(payload := w.payload + data), target, notes)
  {
    hide Chained, OwnEvents;
    ChainedIgnoresPayload(w, data);
  }

  lemma ProcessWrites(w: Writer, target: string, notes: seq<Note>, now: nat, name: string)
    requires Wrote(w, target, notes)
    ensures Wrote(EmitProcess(w, now, name, target), target, notes + [Said(name, now)])
    ensures EmitProcess(w, now, name, target).runId == w.runId && EmitProcess(w, now, name, target).pid == w.pid
  {
    hide Wrote, Emit;
    EmitWrites(w, target, notes, Process(NextStamp(w, now), name, target), now);
  }

  lemma SyscallWrites(w: Writer, target: string, notes: seq<Note>, data: seq<byte>, now: nat, e: Entry, ret: int,
                      p: Option<PayloadRef>)
    requires Wrote(w, target, notes)
    ensures var v := EmitSyscall(w, now, e, ret, p);
            Wrote(v, target, notes + [Called(e.no, e.args, now)]) && v.runId == w.runId && v.pid == w.pid
    ensures var v := EmitSyscall(w.(payload := w.payload + data), now, e, ret, p);
            Wrote(v, target, notes + [Called(e.no, e.args, now)]) && v.runId == w.runId && v.pid == w.pid
  {
    hide Wrote, Emit;
    EmitWrites(w, target, notes, Syscall(NextStamp(w, now), e, ret, p), now);
    PayloadWrites(w, target, notes, data);
    var v := w.(payload := w.payload + data);
    EmitWrites(v, target, notes, Syscall(NextStamp(v, now), e, ret, p), now);
  }

  /** The registers at the entry stop of the call that is open. */
  ghost predicate Opened(inSyscall: bool, entry: Entry, open: Option<Regs>) {
    inSyscall == open.Some? && (open.Some? ==> entry == Entry(open.value.origRax, open.value.args))
  }

  // ---------- the recorder ----------

  lemma AtExitWrites(s: State, notes: seq<Note>, now: nat, ret: int, mem: Memory, copied: nat)
    requires Wrote(s.w, s.target, notes)
    ensures var v := AtExit(s, now, ret, mem, copied);
            && Wrote(v.w, s.target, notes + [Called(s.entry.no, s.entry.args, now)])
            && v.w.runId == s.w.runId && v.w.pid == s.w.pid && v.target == s.target
            && !v.inSyscall && v.done == s.done && v.outcome == s.outcome
  {
    hide Wrote, EmitSyscall, CallData, Hash.HexDigest;
    var d := CallData(s.entry, ret, mem, copied);
    var ref := if d.None? then None else Some(PayloadRef(|s.w.payload|, |d.value|, Hash.HexDigest(d.value)));
    SyscallWrites(s.w, s.target, notes, if d.None? then [] else d.value, now, s.entry, ret, ref);
  }

  lemma {:induction false} RunWrites(s: State, notes: seq<Note>, ticks: seq<Tick>, open: Option<Regs>)
    requires Wrote(s.w, s.target, notes) && !s.done && s.outcome.None? && Opened(s.inSyscall, s.entry, open)
    ensures var v := Run(s, ticks);
            && Wrote(v.w, s.target, notes + NotesOf(ticks, open)) && v.outcome == EndOf(ticks)
            && v.w.runId == s.w.runId && v.w.pid == s.w.pid
    decreases |ticks|
  {
    hide Wrote, AtExit, EmitProcess, AppendHooks;
    if ticks == [] {
      assert notes + [] == notes;
    } else {
      var t, rest := ticks[0], ticks[1..];
      var u := s.(w := AppendHooks(s.w, t.hooks));
      var v := Step(s, t);
      HooksWrite(s.w, s.target, notes, t.hooks);
      HooksSign(s.w, t.hooks);
      var heard := notes + HeardAll(t.hooks);
      match t.stop {
        case SyscallStop(regs, mem, copied) =>
          if s.inSyscall {
            AtExitWrites(u, heard, t.now, regs.rax, mem, copied);
            RunWrites(v, heard + [Called(s.entry.no, s.entry.args, t.now)], rest, None);
            NotesJoin(notes, HeardAll(t.hooks), [Called(s.entry.no, s.entry.args, t.now)], NotesOf(rest, None));
          } else {
            RunWrites(v, heard, rest, Some(regs));
            NotesJoin(notes, HeardAll(t.hooks), [], NotesOf(rest, Some(regs)));
          }
        case OtherStop =>
          RunWrites(v, heard, rest, open);
          NotesJoin(notes, HeardAll(t.hooks), [], NotesOf(rest, open));
        case Exited(code) =>
          ProcessWrites(u.w, s.target, heard, t.now, "program_exit");
          NotesJoin(notes, HeardAll(t.hooks), [Said("program_exit", t.now)], []);
          RunDone(v, rest);
        case Signaled(signal) =>
          ProcessWrites(u.w, s.target, heard, t.now, "program_signal");
          NotesJoin(notes, HeardAll(t.hooks), [Said("program_signal", t.now)], []);
          RunDone(v, rest);
        case Lost =>
          NotesJoin(notes, HeardAll(t.hooks), [], []);
          RunDone(v, rest);
      }
    }
  }

  lemma HooksSign(w: Writer, hooks: seq<HookEvent>)
    ensures AppendHooks(w, hooks).runId == w.runId && AppendHooks(w, hooks).pid == w.pid
  {
  }

  lemma NotesJoin(a: seq<Note>, b: seq<Note>, c: seq<Note>, d: seq<Note>)
    ensures a + (b + (c + d)) == ((a + b) + c) + d
    ensures c == [] ==> a + (b + d) == (a + b) + d
    ensures d == [] ==> a + (b + c) == (a + b) + c
    ensures c == [] && d == [] ==> a + (b + d) == a + b
  {
  }

  lemma StartWrites(runId: string, pid: int, now: nat, target: string)
    ensures Wrote(EmitProcess(NewWriter(runId, pid), now, "program_start", target), target,
                  [Said("program_start", now)])
    ensures var w := EmitProcess(NewWriter(runId, pid), now, "program_start", target); w.runId == runId && w.pid == pid
  {
    hide Chained, EmitProcess, OwnEvents;
    NewWriterChained(runId, pid);
    assert Notes(NewWriter(runId, pid).lines) == [];
    ProcessWrites(NewWriter(runId, pid), target, [], now, "program_start");
    assert [] + [Said("program_start", now)] == [Said("program_start", now)];
  }

  /** A whole recording: program_start, one event per completed call with the time of its exit stop, the hook's
      lines where they came in, and the end of the program if it came; all under this run's name, process and target. */
  lemma RecordingTold(runId: string, pid: int, now: nat, target: string, ticks: seq<Tick>)
    ensures var s := Run(Start(runId, pid, now, target), ticks);
            && Notes(s.w.lines) == [Said("program_start", now)] + NotesOf(ticks, None)
            && Signed(OwnEvents(s.w.lines), runId, pid, target)
            && s.outcome == EndOf(ticks)
  {
    hide Run, EmitProcess, Chained, Notes, Signed;
    StartWrites(runId, pid, now, target);
    RunWrites(Start(runId, pid, now, target), [Said("program_start", now)], ticks, None);
  }

  // ---------- the replayer ----------

  lemma OnExitWrites(s: RState, notes: seq<Note>, now: nat, ret: int)
    requires Wrote(s.w, s.target, notes)
    ensures var v := OnExit(s, now, ret);
            && Wrote(v.w, s.target, notes + [Called(s.entry.no, s.entry.args, now)])
            && v.w.runId == s.w.runId && v.w.pid == s.w.pid && v.target == s.target
            && !v.inSyscall && v.done == s.done && v.outcome == s.outcome
  {
    hide Wrote, EmitSyscall, SourceRef, ReadPayload;
    match s.active
    case None => SyscallWrites(s.w, s.target, notes, [], now, s.entry, ret, None);
    case Some(a) =>
      var buf := ReadPayload(s.store, a.offset, a.length);
      var keeps := buf.Some? && a.length > 0;
      var w := if keeps then s.w.(payload := s.w.payload + buf.value) else s.w;
      SyscallWrites(s.w, s.target, notes, if keeps then buf.value else [], now, s.entry,
                    if buf.Some? then a.ret else ret, SourceRef(Some(a), w.payload));
  }

  lemma {:induction false} RRunWrites(s: RState, notes: seq<Note>, ticks: seq<Tick>, open: Option<Regs>)
    requires Wrote(s.w, s.target, notes) && !s.done && s.outcome.None? && Opened(s.inSyscall, s.entry, open)
    ensures var v := RRun(s, ticks);
            && Wrote(v.w, s.target, notes + NotesOf(ticks, open)) && v.outcome == EndOf(ticks)
            && v.w.runId == s.w.runId && v.w.pid == s.w.pid
    decreases |ticks|
  {
    hide Wrote, OnExit, EmitProcess, AppendHooks, Candidate;
    if ticks == [] {
      assert notes + [] == notes;
    } else {
      var t, rest := ticks[0], ticks[1..];
      var u := s.(w := AppendHooks(s.w, t.hooks));
      var v := RStep(s, t);
      HooksWrite(s.w, s.target, notes, t.hooks);
      HooksSign(s.w, t.hooks);
      var heard := notes + HeardAll(t.hooks);
      match t.stop {
        case SyscallStop(regs, mem, copied) =>
          if s.inSyscall {
            OnExitWrites(u, heard, t.now, regs.rax);
            RRunWrites(v, heard + [Called(s.entry.no, s.entry.args, t.now)], rest, None);
            NotesJoin(notes, HeardAll(t.hooks), [Called(s.entry.no, s.entry.args, t.now)], NotesOf(rest, None));
          } else {
            RRunWrites(v, heard, rest, Some(regs));
            NotesJoin(notes, HeardAll(t.hooks), [], NotesOf(rest, Some(regs)));
          }
        case OtherStop =>
          RRunWrites(v, heard, rest, open);
          NotesJoin(notes, HeardAll(t.hooks), [], NotesOf(rest, open));
        case Exited(code) =>
          ProcessWrites(u.w, s.target, heard, t.now, "program_exit");
          NotesJoin(notes, HeardAll(t.hooks), [Said("program_exit", t.now)], []);
          RRunDone(v, rest);
        case Signaled(signal) =>
          ProcessWrites(u.w, s.target, heard, t.now, "program_signal");
          NotesJoin(notes, HeardAll(t.hooks), [Said("program_signal", t.now)], []);
          RRunDone(v, rest);
        case Lost =>
          NotesJoin(notes, HeardAll(t.hooks), [], []);
          RRunDone(v, rest);
      }
    }
  }

  /** And so a whole replay: the queue decides what results and references say, never which events there are. */
  lemma ReplayTold(runId: string, pid: int, now: nat, target: string, queue: seq<ReplayEvent>, store: seq<byte>,
                   ticks: seq<Tick>)
    ensures var s := RRun(Begin(runId, pid, now, target, queue, store), ticks);
            && Notes(s.w.lines) == [Said("program_start", now)] + NotesOf(ticks, None)
            && Signed(OwnEvents(s.w.lines), runId, pid, target)
            && s.outcome == EndOf(ticks)
  {
    hide RRun, EmitProcess, Chained, Notes, Signed;
    StartWrites(runId, pid, now, target);
    RRunWrites(Begin(runId, pid, now, target, queue, store), [Said("program_start", now)], ticks, None);
  }
}
