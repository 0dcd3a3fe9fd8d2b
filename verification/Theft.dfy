/** The condition of cursor alignment is needed: a run whose end-of-file read takes the next read's event. */
module Theft {
  import opened CText
  import opened ChildMemory
  import opened TraceEvent
  import opened TraceLog
  import opened ReplayQueue
  import opened Ptrace
  import opened Recorder
  import opened Replayer
  import opened TraceShape
  import opened DriftDetection
  import opened Pipeline
  import opened Alignment
  import opened Reproduction

  const READ_BUFFER := 4096

  /** read(3, READ_BUFFER, 5) */
  const READ := Entry(SYS_READ, [3, READ_BUFFER, 5, 0, 0, 0])

  function EntryStop(mem: Memory): Tick { Tick(0, [], SyscallStop(Regs(SYS_READ, 0, READ.args), mem, 5)) }

  function ExitStop(ret: int, mem: Memory): Tick { Tick(0, [], SyscallStop(Regs(SYS_READ, ret, READ.args), mem, 5)) }

  /** A read at the end of a file, which finds nothing, and a second one when the file has grown. */
  function TwoReads(mem: Memory): seq<Tick> { [EntryStop(mem), ExitStop(0, mem), EntryStop(mem), ExitStop(5, mem)] }

  function FirstCall(): Call { Call(READ, 0, None) }

  function SecondCall(mem: Memory): Call
    requires Mapped(mem, READ_BUFFER, 5)
  {
    Call(READ, 5, Some(BytesAt(mem, READ_BUFFER, 5)))
  }

  lemma TwoCalls(mem: Memory)
    requires Mapped(mem, READ_BUFFER, 5)
    ensures CallsOf(TwoReads(mem), None) == [FirstCall(), SecondCall(mem)]
  {
    hide Mapped, BytesAt;
    var ticks := TwoReads(mem);
    assert ticks[1..] == [ExitStop(0, mem), EntryStop(mem), ExitStop(5, mem)];
    assert ticks[1..][1..] == [EntryStop(mem), ExitStop(5, mem)];
    assert ticks[1..][1..][1..] == [ExitStop(5, mem)] && ticks[1..][1..][1..][1..] == [];
    assert CallsOf([], None) == [];
    assert CallsOf([ExitStop(5, mem)], Some(READ)) == [SecondCall(mem)];
    assert CallsOf([EntryStop(mem), ExitStop(5, mem)], None) == [SecondCall(mem)];
  }

  /** The first is left out of the queue and the second is in it. */
  lemma OnlySecondQueued(mem: Memory)
    requires Mapped(mem, READ_BUFFER, 5)
    ensures var calls := [FirstCall(), SecondCall(mem)];
            && QCalls(calls) == [QCall(SYS_READ, false), QCall(SYS_READ, true)] && !NoTheft(QCalls(calls))
            && WantedCalls(calls) == [SecondCall(mem)]
  {
    var calls := [FirstCall(), SecondCall(mem)];
    assert calls[1..] == [SecondCall(mem)] && calls[1..][1..] == [];
    assert |BytesAt(mem, READ_BUFFER, 5)| == 5;
    hide Mapped, BytesAt;
    assert QCalls([SecondCall(mem)]) == [QCall(SYS_READ, true)];
    assert WantedCalls([SecondCall(mem)]) == [SecondCall(mem)];
    var rec := [QCall(SYS_READ, false), QCall(SYS_READ, true)];
    assert rec[1..] == [QCall(SYS_READ, true)] && rec[1..][1..] == [];
    assert QueuedNos(rec[1..]) == [SYS_READ];
    assert rec[0 + 1..] == rec[1..];
    assert StealsNext(rec, 0);
  }

  /** At the entry of the first read the cursor is on the event of the second. */
  lemma FirstEntry(s: RState, mem: Memory)
    requires Following(s) && !s.done && !s.inSyscall && s.cursor == 0 && |s.queue| == 1 && s.queue[0].no == SYS_READ
    ensures var v := RStep(s, EntryStop(mem));
            && v.active == Some(s.queue[0]) && v.entry == READ && v.store == s.store && v.queue == s.queue
            && v.inSyscall && !v.done && v.cursor == 0 && Following(v)
  {
    hide Following, AppendHooks, Seen, Strayed;
    StepFollows(s, EntryStop(mem));
  }

  /** At the entry of the second there is nothing left for it. */
  lemma SecondEntry(s: RState, ret: int, live: Memory, mem: Memory)
    requires Following(s) && !s.done && s.inSyscall && s.active.Some? && |s.queue| == 1
    ensures RStep(RStep(s, ExitStop(ret, live)), EntryStop(mem)).active == None
    ensures RStep(RStep(s, ExitStop(ret, live)), EntryStop(mem)).inSyscall
  {
    hide Following, AppendHooks, Seen, Strayed, EmitSyscall, ReadPayload;
    StepFollows(s, ExitStop(ret, live));
  }

  lemma StolenBytes(s: RState, live: Memory, mem: Memory)
    requires Mapped(mem, READ_BUFFER, 5)
    requires s.active.Some? && s.entry == READ && Carries(s.active.value, SecondCall(mem), s.store)
    ensures Resumed(s, 0, live, 5) == Resumption(5, Overlay(live, READ_BUFFER, BytesAt(mem, READ_BUFFER, 5)))
  {
    hide Overlay, Mapped, BytesAt, ReadPayload;
    var d := BytesAt(mem, READ_BUFFER, 5);
    assert |d| == 5 by { FiveBytes(mem); }
    assert d[..5] == d;
  }

  lemma FiveBytes(mem: Memory)
    requires Mapped(mem, READ_BUFFER, 5)
    ensures |BytesAt(mem, READ_BUFFER, 5)| == 5
  {
  }

  /** Such a run is within the limits of the theorems about recordings. */
  lemma TwoReadsWithin(runId: string, target: string, mem: Memory)
    requires LegibleNames(runId, target) && Mapped(mem, READ_BUFFER, 5)
    ensures Within(runId, 7, 0, target, TwoReads(mem))
  {
    hide LegibleNames, CallsOf, Mapped, BytesAt;
    TwoCalls(mem);
    FiveBytes(mem);
    var calls := [FirstCall(), SecondCall(mem)];
    assert calls[..1] == [FirstCall()] && calls[..1][..0] == [];
    assert DataTotal(calls[..1]) == 0;
    LegibleIsWithin(runId, 7, 0, target, TwoReads(mem));
  }

  /** Replaying that run: the first read, which returned 0 when it was recorded and returns 0 again, comes back
      to the program with the second read's result and bytes, and the second read gets no event at all. */
  lemma TheftHappens(runId: string, pid: int, now: nat, target: string, mem: Memory,
                     runId2: string, pid2: int, now2: nat, target2: string, live: Memory)
    requires Mapped(mem, READ_BUFFER, 5) && Within(runId, pid, now, target, TwoReads(mem))
    ensures var calls := CallsOf(TwoReads(mem), None);
            && |calls| == 2 && calls[0].ret == 0 && calls[1].ret == 5
            && QCalls(calls) == [QCall(SYS_READ, false), QCall(SYS_READ, true)] && !NoTheft(QCalls(calls))
    ensures var rec := Run(Start(runId, pid, now, target), TwoReads(mem));
            var begin := Begin(runId2, pid2, now2, target2, QueueOfText(FileText(rec.w.lines)), rec.w.payload);
            var r1 := RStep(begin, EntryStop(live));
            var r2 := RStep(RStep(r1, ExitStop(0, live)), EntryStop(live));
            && Resumed(r1, 0, live, 5) == Resumption(5, Overlay(live, READ_BUFFER, BytesAt(mem, READ_BUFFER, 5)))
            && r2.inSyscall && r2.active == None
  {
    hide Within, Run, Start, Begin, FileText, QueueOfText, CallsOf, Following, OnTrack, Intact, RStep, Resumed, QCalls;
    hide NoTheft, WantedCalls, Carries, Mapped, BytesAt, Overlay;
    var rec := Run(Start(runId, pid, now, target), TwoReads(mem));
    var queue := QueueOfText(FileText(rec.w.lines));
    var begin := Begin(runId2, pid2, now2, target2, queue, rec.w.payload);
    TwoCalls(mem);
    OnlySecondQueued(mem);
    RecordingServes(runId, pid, now, target, TwoReads(mem));
    BeginOnTrack(runId2, pid2, now2, target2, queue, rec.w.payload);
    BeginFields(runId2, pid2, now2, target2, queue, rec.w.payload);
    CarriesNo(queue[0], SecondCall(mem), rec.w.payload);
    FirstEntry(begin, live);
    StolenBytes(RStep(begin, EntryStop(live)), live, mem);
    SecondEntry(RStep(begin, EntryStop(live)), 0, live, live);
  }
}
