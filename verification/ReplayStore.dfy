/** What the replayer takes from payload.bin and what it does without it: a damaged store costs results, never
    the place in the queue. */
module ReplayStore {
  import opened CText
  import opened Sha256
  import opened ChildMemory
  import opened TraceEvent
  import opened TraceLog
  import HashChain
  import opened Ptrace
  import opened Recorder
  import opened Replayer

  // ---------- read_payload ----------

  /** Bytes that are in the file are found where they are. */
  lemma PayloadFound(front: seq<byte>, data: seq<byte>, back: seq<byte>)
    ensures ReadPayload(front + data + back, |front|, |data|) == Some(data)
  {
    var file := front + data + back;
    assert file[|front|..|front| + |data|] == data;
  }

  /** Reading fails exactly when something is wanted and not all of it is there. */
  lemma PayloadMissing(file: seq<byte>, offset: int, length: nat)
    ensures ReadPayload(file, offset, length).None? <==> length > 0 && (offset < 0 || |file| - offset < length)
    ensures ReadPayload(file, offset, 0) == Some([])
  {
  }

  // ---------- the store has no say in the order ----------

  /** Two replays that differ in what they found in their stores. */
  ghost predicate SameTrack(s: RState, t: RState) {
    && s.queue == t.queue && s.cursor == t.cursor && s.active == t.active
    && s.inSyscall == t.inSyscall && s.entry == t.entry && s.done == t.done
    && s.outcome == t.outcome && s.target == t.target
  }

  lemma ExitsTogether(s: RState, t: RState, now: nat, ret: int)
    requires SameTrack(s, t)
    ensures SameTrack(OnExit(s, now, ret), OnExit(t, now, ret))
  {
    hide EmitSyscall, ReadPayload, SourceRef;
  }

  lemma StepsTogether(s: RState, t: RState, tick: Tick)
    requires SameTrack(s, t)
    ensures SameTrack(RStep(s, tick), RStep(t, tick))
  {
    hide OnExit, EmitProcess, AppendHooks, Candidate;
    ExitsTogether(s.(w := AppendHooks(s.w, tick.hooks)), t.(w := AppendHooks(t.w, tick.hooks)), tick.now,
                  if tick.stop.SyscallStop? then tick.stop.regs.rax else 0);
  }

  lemma {:induction false} RunsTogether(s: RState, t: RState, ticks: seq<Tick>)
    requires SameTrack(s, t)
    ensures SameTrack(RRun(s, ticks), RRun(t, ticks))
    decreases |ticks|
  {
    hide SameTrack, RStep;
    if ticks != [] {
      StepsTogether(s, t, ticks[0]);
      RunsTogether(RStep(s, ticks[0]), RStep(t, ticks[0]), ticks[1..]);
    }
  }

  /** Which queued event serves which call does not depend on payload.bin: whatever is missing from it or
      wrong in it, after any stops the cursor and the active event are those of the undamaged store. */
  lemma DamageKeepsOrder(runId: string, pid: int, now: nat, target: string, queue: seq<ReplayEvent>,
                         store: seq<byte>, damaged: seq<byte>, ticks: seq<Tick>)
    ensures var s := RRun(Begin(runId, pid, now, target, queue, store), ticks);
            var t := RRun(Begin(runId, pid, now, target, queue, damaged), ticks);
            s.cursor == t.cursor && s.active == t.active && s.outcome == t.outcome
  {
    hide RRun, EmitProcess;
    RunsTogether(Begin(runId, pid, now, target, queue, store), Begin(runId, pid, now, target, queue, damaged), ticks);
  }

  // ---------- a call whose bytes are missing ----------

  /** It runs live: the program keeps its own result and memory, the replay stores no bytes, and its event
      shows the live result; but it has used up the queued event, and its reference still bears that event's
      length and hash, at an offset where the hashed bytes are not. */
  lemma MissingRunsLive(s: RState, now: nat, ret: int, mem: Memory, copied: nat, a: ReplayEvent)
    requires s.active == Some(a) && a.length > 0 && (a.offset < 0 || |s.store| - a.offset < a.length)
    ensures Resumed(s, ret, mem, copied) == Resumption(ret, mem)
    ensures var v := OnExit(s, now, ret);
            && v.cursor == s.cursor + 1 && v.w.payload == s.w.payload && !v.inSyscall
            && v.w == EmitSyscall(s.w, now, s.entry, ret,
                                  Some(PayloadRef(|s.w.payload|, a.length, a.sha256)))
  {
    hide HashChain.ChainHash, Body;
    PayloadMissing(s.store, a.offset, a.length);
    hide ReadPayload;
  }

  /** With its bytes there, the call gets the queued result, and its buffer holds as many of them as could be
      written. */
  lemma FoundIsInjected(s: RState, now: nat, ret: int, mem: Memory, copied: nat, a: ReplayEvent, front: seq<byte>,
                        data: seq<byte>, back: seq<byte>)
    requires s.active == Some(a) && s.store == front + data + back && data != []
    requires a.offset == |front| && a.length == |data|
    ensures var r := Resumed(s, ret, mem, copied);
            && r.ret == a.ret && r.mem.Keys == mem.Keys
            && forall x :: x in mem ==>
                 r.mem[x] == var k := x - PayloadAddr(s.entry);
                             if 0 <= k < |data| && k < copied then data[k] else mem[x]
    ensures var v := OnExit(s, now, ret);
            && v.cursor == s.cursor + 1 && v.w.payload == s.w.payload + data && !v.inSyscall
            && v.w == EmitSyscall(s.w.(payload := s.w.payload + data), now, s.entry, a.ret,
                                  Some(PayloadRef(|s.w.payload| + |data|, |data|, a.sha256)))
  {
    hide HashChain.ChainHash, Body;
    PayloadFound(front, data, back);
    hide ReadPayload, PayloadAddr;
  }

  /** A queued event without bytes gives its result alone, whatever the store holds. */
  lemma EmptyGivesResult(s: RState, now: nat, ret: int, mem: Memory, copied: nat, a: ReplayEvent)
    requires s.active == Some(a) && a.length == 0
    ensures Resumed(s, ret, mem, copied) == Resumption(a.ret, mem)
    ensures var v := OnExit(s, now, ret);
            v.cursor == s.cursor + 1 && v.w == EmitSyscall(s.w, now, s.entry, a.ret, None) && !v.inSyscall
  {
    hide HashChain.ChainHash, Body;
    PayloadMissing(s.store, a.offset, a.length);
    hide ReadPayload;
  }
}
