/** recorder/ptrace_recorder.c: the record loop. */
module Recorder {
  import opened CText
  import opened Sha256
  import opened Hash
  import opened HashChain
  import opened ChildMemory
  import opened TraceEvent
  import opened TraceLog
  import opened Ptrace

  datatype State = State(w: Writer, inSyscall: bool, entry: Entry, target: string, done: bool,
                         outcome: Option<Outcome>)

  function Start(runId: string, pid: int, now: nat, target: string): State {
    State(EmitProcess(NewWriter(runId, pid), now, "program_start", target), false, NO_ENTRY, target, false, None)
  }

  function AtExit(s: State, now: nat, ret: int, mem: Memory, copied: nat): State {
    match CallData(s.entry, ret, mem, copied)
    case None => s.(w := EmitSyscall(s.w, now, s.entry, ret, None), inSyscall := false)
    case Some(data) =>
      var ref := PayloadRef(|s.w.payload|, |data|, HexDigest(data));
      s.(w := EmitSyscall(s.w.(payload := s.w.payload + data), now, s.entry, ret, Some(ref)), inSyscall := false)
  }

  function Step(s0: State, t: Tick): State {
    if s0.done then s0
    else
      var s := s0.(w := AppendHooks(s0.w, t.hooks));
      match t.stop
      case Lost => s.(done := true)
      case Exited(code) =>
        s.(w := EmitProcess(s.w, t.now, "program_exit", s.target), done := true, outcome := Some(Outcome(code, 0)))
      case Signaled(signal) =>
        s.(w := EmitProcess(s.w, t.now, "program_signal", s.target), done := true,
           outcome := Some(Outcome(128 + signal, signal)))
      case OtherStop => s
      case SyscallStop(regs, mem, copied) =>
        if !s.inSyscall then s.(entry := Entry(regs.origRax, regs.args), inSyscall := true)
        else AtExit(s, t.now, regs.rax, mem, copied)
  }

  function Run(s: State, ticks: seq<Tick>): State
    decreases |ticks|
  {
    if ticks == [] then s else Run(Step(s, ticks[0]), ticks[1..])
  }

  class Recorder {
    const tw: TraceWriter
    const target: string
    var inSyscall: bool
    var entry: Entry
    var done: bool
    var outcome: Option<Outcome>

    ghost function Contents(): State
      reads this, tw
    {
      State(tw.Contents(), inSyscall, entry, target, done, outcome)
    }

    constructor (runId: string, pid: int, now: nat, target: string)
      ensures fresh(tw) && Contents() == Start(runId, pid, now, target)
    {
      tw := new TraceWriter(runId, pid);
      this.target := target;
      inSyscall := false;
      entry := NO_ENTRY;
      done := false;
      outcome := None;
      new;
      tw.EmitProcessEvent(now, "program_start", target);
    }

    /** The exit half of a call: keep the buffer, then write the event. */
    method OnExit(now: nat, ret: int, mem: Memory, copied: nat)
      modifies this`inSyscall, tw
      ensures Contents() == AtExit(old(Contents()), now, ret, mem, copied)
    {
      hide EmitSyscall, HexDigest, CopyOut;
      var ref: Option<PayloadRef> := None;
      var len := PayloadLen(entry, ret);
      if IsReplayable(entry.no) && len > 0 {
        var buf := CopyOut(mem, copied, PayloadAddr(entry), len);
        if buf.Some? {
          var offset, hash := tw.AppendPayload(buf.value);
          ref := Some(PayloadRef(offset, |buf.value|, hash));
        }
      }
      tw.EmitSyscallEvent(now, entry, ret, ref);
      inSyscall := false;
    }

    method OnStop(t: Tick)
      requires !done
      modifies this, tw
      ensures Contents() == Step(old(Contents()), t)
    {
      hide EmitProcess, AtExit, AppendHooks;
      tw.HookAppends(t.hooks);
      match t.stop
      case Lost =>
        done := true;
      case Exited(code) =>
        tw.EmitProcessEvent(t.now, "program_exit", target);
        outcome, done := Some(Outcome(code, 0)), true;
      case Signaled(signal) =>
        tw.EmitProcessEvent(t.now, "program_signal", target);
        outcome, done := Some(Outcome(128 + signal, signal)), true;
      case OtherStop =>
      case SyscallStop(regs, mem, copied) =>
        if !inSyscall {
          entry := Entry(regs.origRax, regs.args);
          inSyscall := true;
        } else {
          OnExit(t.now, regs.rax, mem, copied);
        }
    }

    method Record(ticks: seq<Tick>)
      modifies this, tw
      ensures Contents() == Run(old(Contents()), ticks)
    {
      hide Step;
      var i := 0;
      while i < |ticks| && !done
        invariant i <= |ticks|
        invariant Run(Contents(), ticks[i..]) == Run(old(Contents()), ticks)
      {
        OnStop(ticks[i]);
        i := i + 1;
      }
      if i < |ticks| {
        RunDone(Contents(), ticks[i..]);
      }
    }
  }

  lemma {:induction false} RunDone(s: State, ticks: seq<Tick>)
    requires s.done
    ensures Run(s, ticks) == s
    decreases |ticks|
  {
    if ticks != [] {
      RunDone(s, ticks[1..]);
    }
  }

  // ---------- every run: seq, chain, one event per call ----------

  function SyscallEvents(events: seq<Event>): seq<Event> {
    if events == [] then []
    else if events[|events| - 1].Syscall? then SyscallEvents(events[..|events| - 1]) + [events[|events| - 1]]
    else SyscallEvents(events[..|events| - 1])
  }

  lemma SyscallEventsAppend(events: seq<Event>, e: Event)
    ensures SyscallEvents(events + [e]) == if e.Syscall? then SyscallEvents(events) + [e] else SyscallEvents(events)
  {
    assert (events + [e])[..|events|] == events;
  }

  /** read_payload on the bytes of payload.bin. */
  function ReadPayload(file: seq<byte>, offset: int, length: nat): Option<seq<byte>> {
    if length == 0 then Some([])
    else if 0 <= offset && offset + length <= |file| then Some(file[offset..offset + length])
    else None
  }

  /** The event tells of exactly this call, and its reference leads to exactly the call's bytes. */
  ghost predicate Tells(e: Event, c: Call, file: seq<byte>) {
    && e.Syscall? && e.entry == c.entry && e.ret == c.ret
    && (c.data.None? ==> e.payload.None?)
    && (c.data.Some? ==>
      && e.payload.Some? && e.payload.value.length == |c.data.value|
      && e.payload.value.sha256 == HexDigest(c.data.value)
      && ReadPayload(file, e.payload.value.offset, e.payload.value.length) == Some(c.data.value))
  }

  ghost predicate TellsAll(events: seq<Event>, calls: seq<Call>, file: seq<byte>) {
    |events| == |calls| && forall i :: 0 <= i < |events| ==> Tells(events[i], calls[i], file)
  }

  /** The end of the bytes the first events refer to. */
  function PayloadEnd(events: seq<Event>): nat {
    if events == [] then 0
    else
      var e := events[|events| - 1];
      PayloadEnd(events[..|events| - 1]) + if e.Syscall? && e.payload.Some? then e.payload.value.length else 0
  }

  /** References tile payload.bin in order: each starts where the ones before it end. */
  ghost predicate Tiled(events: seq<Event>, file: seq<byte>) {
    && |file| == PayloadEnd(events)
    && forall k :: 0 <= k < |events| && events[k].Syscall? && events[k].payload.Some? ==>
         events[k].payload.value.offset == PayloadEnd(events[..k]) && events[k].payload.value.length > 0
  }

  ghost predicate Sound(s: State, calls: seq<Call>) {
    && Chained(s.w)
    && TellsAll(SyscallEvents(OwnEvents(s.w.lines)), calls, s.w.payload)
    && Tiled(OwnEvents(s.w.lines), s.w.payload)
  }

  lemma TiledAppend(events: seq<Event>, e: Event, file: seq<byte>, data: seq<byte>)
    requires Tiled(events, file)
    requires e.Syscall? && e.payload.Some? ==>
               e.payload.value.offset == |file| && e.payload.value.length == |data| > 0
    requires !(e.Syscall? && e.payload.Some?) ==> data == []
    ensures Tiled(events + [e], file + data)
  {
    hide PayloadEnd;
    var more := events + [e];
    PayloadEndAppend(events, e);
    forall k | 0 <= k < |more|
      ensures more[..k] == if k < |events| then events[..k] else events
    {
    }
  }

  lemma PayloadEndAppend(events: seq<Event>, e: Event)
    ensures PayloadEnd(events + [e]) ==
            PayloadEnd(events) + if e.Syscall? && e.payload.Some? then e.payload.value.length else 0
  {
    assert (events + [e])[..|events|] == events;
  }

  lemma TellsLater(events: seq<Event>, calls: seq<Call>, file: seq<byte>, data: seq<byte>)
    requires TellsAll(events, calls, file)
    ensures TellsAll(events, calls, file + data)
  {
    hide HexDigest;
    forall i | 0 <= i < |events|
      ensures Tells(events[i], calls[i], file + data)
    {
      assert Tells(events[i], calls[i], file);
      if calls[i].data.Some? {
        var p := events[i].payload.value;
        if p.length > 0 {
          assert (file + data)[p.offset..p.offset + p.length] == file[p.offset..p.offset + p.length];
        }
      }
    }
  }

  lemma StartSound(runId: string, pid: int, now: nat, target: string)
    ensures Sound(Start(runId, pid, now, target), [])
  {
    hide ChainHash, Chained;
    var w := NewWriter(runId, pid);
    var e := Process(NextStamp(w, now), "program_start", target);
    NewWriterChained(runId, pid);
    EmitEventKeepsSound(State(w, false, NO_ENTRY, target, false, None), [], e);
  }

  /** Emitting a process event changes nothing but the log. */
  lemma EmitEventKeepsSound(s: State, calls: seq<Call>, e: Event)
    requires Sound(s, calls) && e.Process? && e.stamp.seqNo == s.w.seqNo + 1 && e.stamp.runId == s.w.runId
    ensures Sound(s.(w := Emit(s.w.(seqNo := s.w.seqNo + 1), e)), calls)
  {
    hide ChainHash, Chained, Tiled, TellsAll, SyscallEvents, OwnEvents, Emit;
    EmitKeepsChained(s.w, e);
    SyscallEventsAppend(OwnEvents(s.w.lines), e);
    TiledAppend(OwnEvents(s.w.lines), e, s.w.payload, []);
    assert s.w.payload + [] == s.w.payload;
    EmitLeavesPayload(s.w.(seqNo := s.w.seqNo + 1), e);
  }

  lemma EmitLeavesPayload(w: Writer, e: Event)
    ensures Emit(w, e).payload == w.payload
  {
  }

  lemma ExitKeepsSound(s: State, calls: seq<Call>, now: nat, ret: int, mem: Memory, copied: nat)
    requires Sound(s, calls)
    ensures Sound(AtExit(s, now, ret, mem, copied), calls + [Call(s.entry, ret, CallData(s.entry, ret, mem, copied))])
  {
    hide ChainHash, Chained, Tiled, SyscallEvents, OwnEvents, Emit, HexDigest, CallData;
    var c := Call(s.entry, ret, CallData(s.entry, ret, mem, copied));
    CallDataNonempty(s.entry, ret, mem, copied);
    var data := if c.data.Some? then c.data.value else [];
    var ref := if c.data.Some? then Some(PayloadRef(|s.w.payload|, |data|, HexDigest(data))) else None;
    var e := Syscall(NextStamp(s.w, now), s.entry, ret, ref);
    var w := s.w.(payload := s.w.payload + data);
    if c.data.None? {
      assert w == s.w;
    }
    assert AtExit(s, now, ret, mem, copied).w == Emit(w.(seqNo := w.seqNo + 1), e);
    ChainedIgnoresPayload(s.w, data);
    EmitKeepsChained(w, e);
    EmitLeavesPayload(w.(seqNo := w.seqNo + 1), e);
    var own := OwnEvents(s.w.lines);
    SyscallEventsAppend(own, e);
    TiledAppend(own, e, s.w.payload, data);
    TellsLater(SyscallEvents(own), calls, s.w.payload, data);
    TellsNew(e, c, s.w.payload, data);
  }

  lemma CallDataNonempty(e: Entry, ret: int, mem: Memory, copied: nat)
    ensures var d := CallData(e, ret, mem, copied);
            d.Some? ==> IsReplayable(e.no) && |d.value| == PayloadLen(e, ret) > 0
  {
  }

  lemma ChainedIgnoresPayload(w: Writer, data: seq<byte>)
    requires Chained(w)
    ensures Chained(w.(payload := w.payload + data))
  {
    hide ChainHash, LastHash, OwnEvents, Bodies;
  }

  /** A reference to freshly appended bytes leads to them. */
  lemma TellsNew(e: Event, c: Call, file: seq<byte>, data: seq<byte>)
    requires e.Syscall? && e.entry == c.entry && e.ret == c.ret
    requires c.data.None? ==> e.payload.None?
    requires c.data.Some? ==> c.data.value == data && data != []
                              && e.payload == Some(PayloadRef(|file|, |data|, HexDigest(data)))
    ensures Tells(e, c, file + data)
  {
    hide HexDigest;
    assert (file + data)[|file|..|file| + |data|] == data;
  }

  function Pending(s: State): Option<Entry> { if s.inSyscall then Some(s.entry) else None }

  lemma HooksKeepSound(s: State, calls: seq<Call>, hooks: seq<HookEvent>)
    requires Sound(s, calls)
    ensures Sound(s.(w := AppendHooks(s.w, hooks)), calls)
  {
    hide Chained, SyscallEvents, OwnEvents, Tiled, TellsAll;
    HooksKeepChained(s.w, hooks);
  }

  lemma StepKeepsSound(s: State, calls: seq<Call>, t: Tick)
    requires Sound(s, calls) && !s.done
    ensures Sound(Step(s, t), calls + CallsOf([t], Pending(s)))
    ensures Step(s, t).done == Ends(t.stop)
  {
    hide Sound, AtExit, Emit, AppendHooks, CallData;
    HooksKeepSound(s, calls, t.hooks);
    var v := s.(w := AppendHooks(s.w, t.hooks));
    assert calls + [] == calls;
    match t.stop
    case Exited(code) =>
      ProcessKeepsSound(v, calls, t.now, "program_exit");
      SoundIsOfWriter(v.(w := EmitProcess(v.w, t.now, "program_exit", v.target)), Step(s, t), calls);
    case Signaled(signal) =>
      ProcessKeepsSound(v, calls, t.now, "program_signal");
      SoundIsOfWriter(v.(w := EmitProcess(v.w, t.now, "program_signal", v.target)), Step(s, t), calls);
    case SyscallStop(regs, mem, copied) =>
      if s.inSyscall {
        ExitKeepsSound(v, calls, t.now, regs.rax, mem, copied);
        ExitClears(s, t);
        assert [t][1..] == [];
        assert CallsOf([t], Pending(s)) == [Call(s.entry, regs.rax, CallData(s.entry, regs.rax, mem, copied))];
      } else {
        SoundIsOfWriter(v, Step(s, t), calls);
        assert [t][1..] == [];
        assert CallsOf([t], Pending(s)) == [];
      }
    case OtherStop =>
      SoundIsOfWriter(v, Step(s, t), calls);
      assert [t][1..] == [];
      assert CallsOf([t], Pending(s)) == [];
    case Lost =>
      SoundIsOfWriter(v, Step(s, t), calls);
  }

  lemma SoundIsOfWriter(s: State, v: State, calls: seq<Call>)
    requires Sound(s, calls) && s.w == v.w
    ensures Sound(v, calls)
  {
    hide Chained, SyscallEvents, OwnEvents, Tiled, TellsAll;
  }

  lemma ProcessKeepsSound(s: State, calls: seq<Call>, now: nat, name: string)
    requires Sound(s, calls)
    ensures Sound(s.(w := EmitProcess(s.w, now, name, s.target)), calls)
  {
    hide Chained, SyscallEvents, OwnEvents, Tiled, TellsAll, Emit;
    EmitEventKeepsSound(s, calls, Process(NextStamp(s.w, now), name, s.target));
  }

  lemma CallsOfCons(t: Tick, rest: seq<Tick>, s: State)
    requires !s.done
    ensures CallsOf([t] + rest, Pending(s)) ==
            CallsOf([t], Pending(s)) + if Ends(t.stop) then [] else CallsOf(rest, Pending(Step(s, t)))
  {
    hide CallData, AppendHooks, AtExit, EmitProcess;
    assert ([t] + rest)[1..] == rest && [t][1..] == [];
    assert CallsOf([], None) == [] && CallsOf([], Pending(s)) == [];
    ExitClears(s, t);
  }

  lemma ExitClears(s: State, t: Tick)
    ensures t.stop.SyscallStop? && !s.done ==>
              Pending(Step(s, t)) == if s.inSyscall then None else Some(Entry(t.stop.regs.origRax, t.stop.regs.args))
    ensures t.stop.OtherStop? && !s.done ==> Pending(Step(s, t)) == Pending(s)
    ensures t.stop.SyscallStop? ==> Step(s, t).done == s.done
  {
    hide CallData, EmitSyscall, HexDigest;
  }

  lemma {:induction false} RunKeepsSound(s: State, calls: seq<Call>, ticks: seq<Tick>)
    requires Sound(s, calls) && !s.done
    ensures Sound(Run(s, ticks), calls + CallsOf(ticks, Pending(s)))
    decreases |ticks|
  {
    hide Sound, Step, CallsOf, Pending;
    if ticks == [] {
      assert CallsOf([], Pending(s)) == [] by { NoCalls(Pending(s)); }
      assert calls + [] == calls;
    } else {
      var t, rest := ticks[0], ticks[1..];
      StepKeepsSound(s, calls, t);
      CallsOfCons(t, rest, s);
      assert ticks == [t] + rest;
      var more := calls + CallsOf([t], Pending(s));
      if Ends(t.stop) {
        RunDone(Step(s, t), rest);
        assert more + [] == more;
        assert calls + (CallsOf([t], Pending(s)) + []) == more;
      } else {
        RunKeepsSound(Step(s, t), more, rest);
        assert calls + (CallsOf([t], Pending(s)) + CallsOf(rest, Pending(Step(s, t))))
            == more + CallsOf(rest, Pending(Step(s, t)));
      }
    }
  }

  lemma NoCalls(pending: Option<Entry>)
    ensures CallsOf([], pending) == []
  {
  }

  /** A whole recording, whatever the stops and whatever the hook appends in between: hook lines set
      aside, seq is 1..n and the chain recomputes; there is exactly one SYSCALL event per completed
      call, in order, with that call's registers; payload.bin is tiled by the references, each of
      which leads to its call's bytes under their SHA-256. */
  lemma RecordingIsFaithful(runId: string, pid: int, now: nat, target: string, ticks: seq<Tick>)
    ensures Sound(Run(Start(runId, pid, now, target), ticks), CallsOf(ticks, None))
  {
    hide Sound, Run, Start;
    StartSound(runId, pid, now, target);
    StartIdle(runId, pid, now, target);
    RunKeepsSound(Start(runId, pid, now, target), [], ticks);
    assert [] + CallsOf(ticks, None) == CallsOf(ticks, None);
  }

  lemma StartIdle(runId: string, pid: int, now: nat, target: string)
    ensures !Start(runId, pid, now, target).done && Pending(Start(runId, pid, now, target)) == None
  {
    hide EmitProcess;
  }

  lemma {:induction false} PayloadEndMonotone(events: seq<Event>, j: nat, k: nat)
    requires j <= k <= |events|
    ensures PayloadEnd(events[..j]) <= PayloadEnd(events[..k])
  {
    if j < k {
      assert events[..k][..k - 1] == events[..k - 1];
      PayloadEndMonotone(events, j, k - 1);
    }
  }

  /** References are in file order, pairwise disjoint and inside payload.bin. */
  lemma ReferencesDisjoint(events: seq<Event>, file: seq<byte>, j: nat, k: nat)
    requires Tiled(events, file) && j < k < |events|
    requires events[j].Syscall? && events[j].payload.Some? && events[k].Syscall? && events[k].payload.Some?
    ensures var p, q := events[j].payload.value, events[k].payload.value;
            0 <= p.offset && p.offset + p.length <= q.offset && q.offset + q.length <= |file|
  {
    hide PayloadEnd;
    PayloadEndAppend(events[..j], events[j]);
    PayloadEndAppend(events[..k], events[k]);
    assert events[..j] + [events[j]] == events[..j + 1] && events[..k] + [events[k]] == events[..k + 1];
    assert events[..|events|] == events;
    PayloadEndMonotone(events, j + 1, k);
    PayloadEndMonotone(events, k + 1, |events|);
  }

  // ---------- how much a recording stores ----------

  function DataTotal(calls: seq<Call>): nat {
    if calls == [] then 0
    else DataTotal(calls[..|calls| - 1]) + if calls[|calls| - 1].data.Some? then |calls[|calls| - 1].data.value| else 0
  }

  lemma {:induction false} SyscallsHoldPayload(events: seq<Event>)
    ensures PayloadEnd(SyscallEvents(events)) == PayloadEnd(events)
  {
    if events != [] {
      var p, e := events[..|events| - 1], events[|events| - 1];
      SyscallsHoldPayload(p);
      PayloadEndAppend(SyscallEvents(p), e);
    }
  }

  lemma {:induction false} EventsHoldData(events: seq<Event>, calls: seq<Call>, file: seq<byte>)
    requires TellsAll(events, calls, file)
    ensures PayloadEnd(events) == DataTotal(calls)
  {
    hide HexDigest, ReadPayload;
    if events != [] {
      var n := |events| - 1;
      assert Tells(events[n], calls[n], file);
      forall i | 0 <= i < n
        ensures Tells(events[..n][i], calls[..n][i], file)
      {
        assert Tells(events[i], calls[i], file);
      }
      EventsHoldData(events[..n], calls[..n], file);
    }
  }

  /** payload.bin is as long as the kept buffers of the calls together. */
  lemma RecordingSize(runId: string, pid: int, now: nat, target: string, ticks: seq<Tick>)
    ensures |Run(Start(runId, pid, now, target), ticks).w.payload| == DataTotal(CallsOf(ticks, None))
  {
    hide Run, Start, Chained, CallsOf, DataTotal, OwnEvents, SyscallEvents, PayloadEnd, Tells;
    var s := Run(Start(runId, pid, now, target), ticks);
    RecordingIsFaithful(runId, pid, now, target, ticks);
    SyscallsHoldPayload(OwnEvents(s.w.lines));
    EventsHoldData(SyscallEvents(OwnEvents(s.w.lines)), CallsOf(ticks, None), s.w.payload);
  }
}
