/** replayer/ptrace_replayer.c: the replay loop, its cursor over the queue, and the injection. */
module Replayer {
  import opened CText
  import opened Sha256
  import opened ChildMemory
  import opened TraceEvent
  import opened TraceLog
  import opened Ptrace
  import opened Recorder

  /** `queue` and `store` are the source trace: the loaded events and payload.bin. */
  datatype RState = RState(w: Writer, inSyscall: bool, entry: Entry, target: string, done: bool,
                           outcome: Option<Outcome>, queue: seq<ReplayEvent>, store: seq<byte>,
                           cursor: nat, active: Option<ReplayEvent>)

  function Begin(runId: string, pid: int, now: nat, target: string, queue: seq<ReplayEvent>, store: seq<byte>): RState {
    RState(EmitProcess(NewWriter(runId, pid), now, "program_start", target), false, NO_ENTRY, target, false, None,
           queue, store, 0, None)
  }

  /** The queued event that serves a call: the one under the cursor, if the numbers match. */
  function Candidate(queue: seq<ReplayEvent>, cursor: nat, no: int): Option<ReplayEvent> {
    if IsReplayable(no) && cursor < |queue| && queue[cursor].no == no then Some(queue[cursor]) else None
  }

  function OnEntry(s: RState, regs: Regs): RState {
    s.(entry := Entry(regs.origRax, regs.args), active := Candidate(s.queue, s.cursor, regs.origRax), inSyscall := true)
  }

  function SourceRef(source: Option<ReplayEvent>, payload: seq<byte>): Option<PayloadRef> {
    if source.Some? && source.value.length > 0
    then Some(PayloadRef(|payload|, source.value.length, source.value.sha256)) else None
  }

  function OnExit(s: RState, now: nat, ret: int): RState {
    match s.active
    case None => s.(w := EmitSyscall(s.w, now, s.entry, ret, None), inSyscall := false)
    case Some(a) =>
      var buf := ReadPayload(s.store, a.offset, a.length);
      var w := if buf.Some? && a.length > 0 then s.w.(payload := s.w.payload + buf.value) else s.w;
      var r := if buf.Some? then a.ret else ret;
      s.(w := EmitSyscall(w, now, s.entry, r, SourceRef(Some(a), w.payload)), cursor := s.cursor + 1,
         inSyscall := false)
  }

  datatype Resumption = Resumption(ret: int, mem: Memory)

  /** What the child is resumed with at the exit stop: its own result, or the injected one. */
  function Resumed(s: RState, ret: int, mem: Memory, copied: nat): Resumption {
    match s.active
    case None => Resumption(ret, mem)
    case Some(a) =>
      match ReadPayload(s.store, a.offset, a.length)
      case None => Resumption(ret, mem)
      case Some(buf) =>
        Resumption(a.ret, if a.length > 0
                          then Overlay(mem, PayloadAddr(s.entry), buf[..if copied < |buf| then copied else |buf|])
                          else mem)
  }

  function RStep(s0: RState, t: Tick): RState {
    if s0.done then s0
    else
      var s := s0.(w := AppendHooks(s0.w, t.hooks));
      match t.stop
      case Lost => s.(done := true)
      case Exited(code) =>
        s.(w := EmitProcess(s.w, t.now, "program_exit", s.target), done := true, outcome := Some(Outcome(code, 0)))
      case Signaled(signal) =>
        s.(w := EmitProcess(s.w, t.now, "program_signal", s.target), done := true,
           outcome := Some(Outcome(128 + signal, signal)))
      case OtherStop => s
      case SyscallStop(regs, mem, copied) =>
        if !s.inSyscall then OnEntry(s, regs) else OnExit(s, t.now, regs.rax)
  }

  function RRun(s: RState, ticks: seq<Tick>): RState
    decreases |ticks|
  {
    if ticks == [] then s else RRun(RStep(s, ticks[0]), ticks[1..])
  }

  class Replayer {
    const tw: TraceWriter
    const target: string
    const queue: seq<ReplayEvent>
    const store: seq<byte>
    var inSyscall: bool
    var entry: Entry
    var done: bool
    var outcome: Option<Outcome>
    var cursor: nat
    var active: Option<ReplayEvent>

    ghost function Contents(): RState
      reads this, tw
    {
      RState(tw.Contents(), inSyscall, entry, target, done, outcome, queue, store, cursor, active)
    }

    constructor (runId: string, pid: int, now: nat, target: string, queue: seq<ReplayEvent>, store: seq<byte>)
      ensures fresh(tw) && Contents() == Begin(runId, pid, now, target, queue, store)
    {
      tw := new TraceWriter(runId, pid);
      this.target, this.queue, this.store := target, queue, store;
      inSyscall, entry, done, outcome := false, NO_ENTRY, false, None;
      cursor, active := 0, None;
      new;
      tw.EmitProcessEvent(now, "program_start", target);
    }

    method AtEntry(regs: Regs)
      modifies this`entry, this`active, this`inSyscall
      ensures Contents() == OnEntry(old(Contents()), regs)
    {
      entry := Entry(regs.origRax, regs.args);
      active := None;
      if IsReplayable(entry.no) {
        if cursor < |queue| && queue[cursor].no == entry.no {
          active := Some(queue[cursor]);
        }
      }
      inSyscall := true;
    }

    method AtExit(now: nat, rax: int, mem: Memory, copied: nat) returns (resumed: Resumption)
      modifies this`cursor, this`inSyscall, tw
      ensures Contents() == OnExit(old(Contents()), now, rax)
      ensures resumed == Resumed(old(Contents()), rax, mem, copied)
    {
      hide EmitSyscall;
      resumed := Resumption(rax, mem);
      if active.Some? {
        var a := active.value;
        var buf := ReadPayload(store, a.offset, a.length);
        if buf.Some? {
          if a.length > 0 {
            var stored := if copied < |buf.value| then copied else |buf.value|;
            resumed := resumed.(mem := Overlay(mem, PayloadAddr(entry), buf.value[..stored]));
            tw.payload := tw.payload + buf.value;
          }
          resumed := resumed.(ret := a.ret);
        }
        cursor := cursor + 1;
      }
      tw.EmitSyscallEvent(now, entry, resumed.ret, SourceRef(active, tw.payload));
      inSyscall := false;
    }

    method OnStop(t: Tick)
      requires !done
      modifies this, tw
      ensures Contents() == RStep(old(Contents()), t)
    {
      hide EmitProcess, OnExit, OnEntry, AppendHooks;
      tw.HookAppends(t.hooks);
      match t.stop
      case Lost =>
        done := true;
      case Exited(code) =>
        tw.EmitProcessEvent(t.now, "program_exit", target);
        outcome, done := Some(Outcome(code, 0)), true;
      case Signaled(signal) =>
        tw.EmitProcessEvent(t.now, "program_signal", target);
        outcome, done := Some(Outcome(128 + signal, signal)), true;
      case OtherStop =>
      case SyscallStop(regs, mem, copied) =>
        if !inSyscall {
          AtEntry(regs);
        } else {
          var resumed := AtExit(t.now, regs.rax, mem, copied);
        }
    }

    method Replay(ticks: seq<Tick>)
      modifies this, tw
      ensures Contents() == RRun(old(Contents()), ticks)
    {
      hide RStep;
      var i := 0;
      while i < |ticks| && !done
        invariant i <= |ticks|
        invariant RRun(Contents(), ticks[i..]) == RRun(old(Contents()), ticks)
      {
        OnStop(ticks[i]);
        i := i + 1;
      }
      if i < |ticks| {
        RRunDone(Contents(), ticks[i..]);
      }
    }
  }

  lemma {:induction false} RRunDone(s: RState, ticks: seq<Tick>)
    requires s.done
    ensures RRun(s, ticks) == s
    decreases |ticks|
  {
    if ticks != [] {
      RRunDone(s, ticks[1..]);
    }
  }

  // ---------- every replay: seq and chain ----------

  lemma ProcessKeepsChained(w: Writer, now: nat, name: string, target: string)
    requires Chained(w)
    ensures Chained(EmitProcess(w, now, name, target))
  {
    hide Chained, Emit;
    EmitKeepsChained(w, Process(NextStamp(w, now), name, target));
  }

  lemma SyscallKeepsChained(w: Writer, data: seq<byte>, now: nat, entry: Entry, ret: int, p: Option<PayloadRef>)
    requires Chained(w)
    ensures Chained(EmitSyscall(w, now, entry, ret, p))
    ensures Chained(EmitSyscall(w.(payload := w.payload + data), now, entry, ret, p))
  {
    hide Chained, Emit;
    ChainedIgnoresPayload(w, data);
    EmitKeepsChained(w, Syscall(NextStamp(w, now), entry, ret, p));
    var v := w.(payload := w.payload + data);
    EmitKeepsChained(v, Syscall(NextStamp(v, now), entry, ret, p));
  }

  lemma ExitKeepsChained(s: RState, now: nat, ret: int)
    requires Chained(s.w)
    ensures Chained(OnExit(s, now, ret).w)
  {
    hide Chained, EmitSyscall, SourceRef;
    match s.active
    case None => SyscallKeepsChained(s.w, [], now, s.entry, ret, None);
    case Some(a) =>
      var buf := ReadPayload(s.store, a.offset, a.length);
      var keeps := buf.Some? && a.length > 0;
      var w := if keeps then s.w.(payload := s.w.payload + buf.value) else s.w;
      SyscallKeepsChained(s.w, if keeps then buf.value else [], now, s.entry, if buf.Some? then a.ret else ret,
                          SourceRef(Some(a), w.payload));
  }

  lemma StepKeepsChained(s: RState, t: Tick)
    requires Chained(s.w)
    ensures Chained(RStep(s, t).w)
  {
    hide Chained, EmitProcess, OnExit, AppendHooks;
    HooksKeepChained(s.w, t.hooks);
    var v := s.(w := AppendHooks(s.w, t.hooks));
    match t.stop
    case Exited(code) => ProcessKeepsChained(v.w, t.now, "program_exit", s.target);
    case Signaled(signal) => ProcessKeepsChained(v.w, t.now, "program_signal", s.target);
    case SyscallStop(regs, mem, copied) => ExitKeepsChained(v, t.now, regs.rax);
    case _ =>
  }

  lemma {:induction false} RunKeepsChained(s: RState, ticks: seq<Tick>)
    requires Chained(s.w)
    ensures Chained(RRun(s, ticks).w)
    decreases |ticks|
  {
    hide Chained, RStep;
    if ticks != [] {
      StepKeepsChained(s, ticks[0]);
      RunKeepsChained(RStep(s, ticks[0]), ticks[1..]);
    }
  }

  /** Every replay of anything, hook lines set aside, is numbered 1..n and its chain recomputes. */
  lemma ReplayChained(runId: string, pid: int, now: nat, target: string, queue: seq<ReplayEvent>, store: seq<byte>,
                      ticks: seq<Tick>)
    ensures Chained(RRun(Begin(runId, pid, now, target, queue, store), ticks).w)
  {
    hide Chained, RRun, EmitProcess;
    NewWriterChained(runId, pid);
    ProcessKeepsChained(NewWriter(runId, pid), now, "program_start", target);
    RunKeepsChained(Begin(runId, pid, now, target, queue, store), ticks);
  }
}
