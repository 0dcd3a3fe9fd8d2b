/** The four replayable calls by their C parameters: what the kernel stores for each, what a recording must
    keep of it, and what a replay must give back. */
module KernelCalls {
  import opened CText
  import opened Sha256
  import opened ChildMemory
  import opened TraceEvent
  import opened TraceLog
  import opened ReplayQueue
  import opened Ptrace
  import opened Recorder
  import opened Replayer
  import opened TraceShape
  import opened DriftDetection
  import opened Pipeline
  import opened Alignment
  import opened Programs
  import opened Reproduction

  // ---------- the calls ----------

  datatype KernelCall =
    | Read(fd: nat, buf: nat, n: nat)
    | GetRandom(buf: nat, n: nat, flags: nat)
    | ClockGettime(clock: nat, tp: nat)
    | GetTimeOfDay(tv: nat, tz: nat)

  /** The registers at the entry stop, rdi, rsi, rdx and the rest: parameters come first, in order; what a call
      does not take is whatever it was. */
  function EntryOf(c: KernelCall, other: Args): Entry {
    match c
    case Read(fd, buf, n) => Entry(0, [fd, buf, n, other[3], other[4], other[5]])
    case GetRandom(buf, n, flags) => Entry(318, [buf, n, flags, other[3], other[4], other[5]])
    case ClockGettime(clock, tp) => Entry(228, [clock, tp, other[2], other[3], other[4], other[5]])
    case GetTimeOfDay(tv, tz) => Entry(96, [tv, tz, other[2], other[3], other[4], other[5]])
  }

  /** Where the kernel stores its answer. */
  function Dest(c: KernelCall): nat {
    match c
    case Read(_, buf, _) => buf
    case GetRandom(buf, _, _) => buf
    case ClockGettime(_, tp) => tp
    case GetTimeOfDay(tv, _) => tv
  }

  /** How many bytes: as many as read and getrandom return, a struct of two longs from a clock. */
  function Stored(c: KernelCall, ret: int): nat {
    if c.Read? || c.GetRandom? then if ret > 0 then ret else 0
    else if ret == 0 then 16 else 0
  }

  /** A read of nothing or of more than 256 bytes is not replayed. */
  predicate Replayed(c: KernelCall, ret: int) { c.Read? ==> 0 < ret <= 256 }

  /** The call a set of registers stands for. */
  function CallBy(e: Entry): Option<KernelCall> {
    if e.no == 0 then Some(Read(e.args[0], e.args[1], e.args[2]))
    else if e.no == 318 then Some(GetRandom(e.args[0], e.args[1], e.args[2]))
    else if e.no == 228 then Some(ClockGettime(e.args[0], e.args[1]))
    else if e.no == 96 then Some(GetTimeOfDay(e.args[0], e.args[1]))
    else None
  }

  lemma CallByRegisters(c: KernelCall, other: Args)
    ensures CallBy(EntryOf(c, other)) == Some(c)
  {
  }

  lemma RegistersOfCall(e: Entry)
    requires CallBy(e).Some?
    ensures EntryOf(CallBy(e).value, e.args) == e
  {
  }

  /** The tracers look where the kernel stores, and at as much. */
  lemma KeptOf(c: KernelCall, other: Args, ret: int, mem: Memory, copied: nat)
    ensures var e, d, n := EntryOf(c, other), Dest(c), Stored(c, ret);
            && IsReplayable(e.no) && PayloadAddr(e) == d
            && CallData(e, ret, mem, copied) ==
               (if n > 0 && Mapped(mem, d, n) && copied >= n then Some(BytesAt(mem, d, n)) else None)
  {
    hide BytesAt, Mapped;
  }

  lemma OthersAreNotReplayed(e: Entry)
    ensures IsReplayable(e.no) <==> CallBy(e).Some?
  {
  }

  // ---------- what a recording keeps ----------

  /** The call a stream has open at its end. */
  function OpenAfter(ticks: seq<Tick>, open: Option<Entry>): Option<Entry>
    decreases |ticks|
  {
    if ticks == [] then open
    else if ticks[0].stop.SyscallStop? then
      OpenAfter(ticks[1..], if open.None? then Some(Entry(ticks[0].stop.regs.origRax, ticks[0].stop.regs.args))
        else None)
    else OpenAfter(ticks[1..], open)
  }

  predicate GoesOn(ticks: seq<Tick>) { forall i :: 0 <= i < |ticks| ==> !Ends(ticks[i].stop) }

  lemma {:induction false} CallsJoin(a: seq<Tick>, b: seq<Tick>, open: Option<Entry>)
    requires GoesOn(a)
    ensures CallsOf(a + b, open) == CallsOf(a, open) + CallsOf(b, OpenAfter(a, open))
    decreases |a|
  {
    hide CallData;
    if a == [] {
      assert a + b == b;
    } else {
      assert (a + b)[1..] == a[1..] + b && (a + b)[0] == a[0];
      assert !Ends(a[0].stop);
      var next := if a[0].stop.SyscallStop? && open.None?
                  then Some(Entry(a[0].stop.regs.origRax, a[0].stop.regs.args))
                  else if a[0].stop.SyscallStop? then None else open;
      CallsJoin(a[1..], b, next);
    }
  }

  /** The two stops of a call. */
  function Stops(e: Entry, enter: Moment, leave: Moment, ret: int, mem: Memory, copied: nat): seq<Tick> {
    [Tick(enter.now, enter.hooks, SyscallStop(Regs(e.no, ENTRY_RAX, e.args), mem, copied)),
     Tick(leave.now, leave.hooks, SyscallStop(Regs(e.no, ret, e.args), mem, copied))]
  }

  lemma CallsOfStops(e: Entry, enter: Moment, leave: Moment, ret: int, mem: Memory, copied: nat, after: seq<Tick>)
    ensures CallsOf(Stops(e, enter, leave, ret, mem, copied) + after, None)
         == [Call(e, ret, CallData(e, ret, mem, copied))] + CallsOf(after, None)
  {
    hide CallData;
    var ticks := Stops(e, enter, leave, ret, mem, copied) + after;
    assert ticks[1..] == [ticks[1]] + after && ticks[1..][1..] == after;
    assert e == Entry(e.no, e.args);
  }

  /** Of every replayable call that completes, anywhere in any stream of stops, the recording holds an event
      with its registers and result, in its place, and a reference that reads back as the very bytes the kernel
      stored, n for a read or getrandom that returns n, 16 for a clock that returns 0; and no reference exactly
      when it stored none or they could not all be fetched. */
  lemma KernelStoresAreKept(runId: string, pid: int, now: nat, target: string, before: seq<Tick>, c: KernelCall,
                            other: Args, enter: Moment, leave: Moment, ret: int, mem: Memory, copied: nat,
                            after: seq<Tick>)
    requires GoesOn(before) && OpenAfter(before, None) == None
    ensures var e, d, n := EntryOf(c, other), Dest(c), Stored(c, ret);
            var w := Run(Start(runId, pid, now, target), before + Stops(e, enter, leave, ret, mem, copied) + after).w;
            var events, i := SyscallEvents(OwnEvents(w.lines)), |CallsOf(before, None)|;
            && i < |events| && events[i].Syscall? && events[i].entry == e && events[i].ret == ret
            && (events[i].payload.Some? <==> n > 0 && Mapped(mem, d, n) && copied >= n)
            && (events[i].payload.Some? ==>
                 && events[i].payload.value.length == n
                 && ReadPayload(w.payload, events[i].payload.value.offset, n) == Some(BytesAt(mem, d, n)))
  {
    hide Run, Start, CallData, Chained, Tiled, SyscallEvents, OwnEvents, Stops, CallsOf, ReadPayload, Mapped, BytesAt;
    hide EntryOf, Dest, Stored, GoesOn, OpenAfter;
    var e := EntryOf(c, other);
    var stops := Stops(e, enter, leave, ret, mem, copied);
    var ticks := before + stops + after;
    var call := Call(e, ret, CallData(e, ret, mem, copied));
    var i := |CallsOf(before, None)|;
    assert ticks == before + (stops + after);
    CallsJoin(before, stops + after, None);
    CallsOfStops(e, enter, leave, ret, mem, copied, after);
    RecordingIsFaithful(runId, pid, now, target, ticks);
    KeptOf(c, other, ret, mem, copied);
    var w := Run(Start(runId, pid, now, target), ticks).w;
    assert CallsOf(ticks, None)[i] == call;
    TellsOne(SyscallEvents(OwnEvents(w.lines)), CallsOf(ticks, None), w.payload, i);
  }

  lemma TellsOne(events: seq<Event>, calls: seq<Call>, file: seq<byte>, i: nat)
    requires TellsAll(events, calls, file) && i < |calls|
    ensures i < |events| && Tells(events[i], calls[i], file)
  {
    hide Tells;
  }

  // ---------- what a replay gives back ----------

  /** A kernel may answer a replayed call with any result, and store anything where that call stores; any other
      call it answers as it did before. */
  predicate KernelAgain(e: Entry, k: Served, l: Served) {
    match CallBy(e)
    case None => l.ret == k.ret && l.mem == k.mem
    case Some(c) =>
      var n := Stored(c, k.ret);
      if Replayed(c, k.ret) && (n > 0 ==> Mapped(k.mem, Dest(c), n) && k.copied >= n)
      then
        && l.copied >= n && l.mem.Keys == k.mem.Keys
        && forall a :: a in k.mem && !(Dest(c) <= a < Dest(c) + n) ==> l.mem[a] == k.mem[a]
      else l.ret == k.ret && l.mem == k.mem
  }

  /** Such a kernel is one the reproduction theorem admits. */
  lemma KernelAgainIsAgain(e: Entry, k: Served, l: Served)
    requires KernelAgain(e, k, l)
    ensures Again(e, k, l)
  {
    hide Mapped, BytesAt;
    OthersAreNotReplayed(e);
    if CallBy(e).Some? {
      var c := CallBy(e).value;
      RegistersOfCall(e);
      KeptOf(c, e.args, k.ret, k.mem, k.copied);
      hide CallData, PayloadAddr, IsReplayable;
    }
  }

  predicate AllKernelAgain<P>(t: Program<P>, p: P, ks: seq<Served>, ls: seq<Served>)
    requires |ks| == |ls|
    decreases |ks|
  {
    ks == [] || !t.act(p).Invoke? ||
    (KernelAgain(t.act(p).entry, ks[0], ls[0])
      && AllKernelAgain(t, t.resume(p, ks[0].ret, ks[0].mem), ks[1..], ls[1..]))
  }

  lemma {:induction false} KernelsAreAgain<P>(t: Program<P>, p: P, ks: seq<Served>, ls: seq<Served>)
    requires |ks| == |ls| && AllKernelAgain(t, p, ks, ls)
    ensures AllAgain(t, p, ks, ls)
    decreases |ks|
  {
    hide KernelAgain, Again;
    if ks != [] && t.act(p).Invoke? {
      KernelAgainIsAgain(t.act(p).entry, ks[0], ls[0]);
      KernelsAreAgain(t, t.resume(p, ks[0].ret, ks[0].mem), ks[1..], ls[1..]);
    }
  }

  /** One call recorded and replayed, from the first stop to the last: if it is replayed at all, the program
      goes on with the recorded result and, where the live kernel stored something else, the recorded bytes. */
  lemma KernelStoresComeBack(runId: string, pid: int, now: nat, target: string, c: KernelCall, other: Args,
                             enter: Moment, leave: Moment, ret: int, mem: Memory, copied: nat,
                             runId2: string, pid2: int, now2: nat, target2: string,
                             enter2: Moment, liveRet: int, live: Memory, liveCopied: nat)
    requires var e, d, n := EntryOf(c, other), Dest(c), Stored(c, ret);
             && Within(runId, pid, now, target, Stops(e, enter, leave, ret, mem, copied))
             && Replayed(c, ret) && (n > 0 ==> Mapped(mem, d, n) && copied >= n)
             && liveCopied >= n && live.Keys == mem.Keys
             && forall a :: a in mem && !(d <= a < d + n) ==> live[a] == mem[a]
    ensures var e := EntryOf(c, other);
            var rec := Run(Start(runId, pid, now, target), Stops(e, enter, leave, ret, mem, copied));
            var begin := Begin(runId2, pid2, now2, target2, QueueOfText(FileText(rec.w.lines)), rec.w.payload);
            var inside := RStep(begin, EntryTick(e, enter2, live, liveCopied));
            Resumed(inside, liveRet, live, liveCopied) == Resumption(ret, mem)
  {
    hide Within, Run, Start, Begin, FileText, QueueOfText, CallsOf, Following, OnTrack, Intact, RStep, Resumed;
    hide CallData;
    hide WantedCalls, Carries, Mapped, BytesAt, EntryOf, Dest, Stored, Stops, Candidate;
    var e := EntryOf(c, other);
    var stops := Stops(e, enter, leave, ret, mem, copied);
    var rec := Run(Start(runId, pid, now, target), stops);
    var queue := QueueOfText(FileText(rec.w.lines));
    var begin := Begin(runId2, pid2, now2, target2, queue, rec.w.payload);
    var k := Served([], enter, [], leave, ret, mem, copied);
    var l := Served([], enter2, [], leave, liveRet, live, liveCopied);
    CallsOfStops(e, enter, leave, ret, mem, copied, []);
    assert stops + [] == stops && CallsOf([], None) == [] by { NoCalls(None); }
    assert CallsOf(stops, None) == [CallOf(e, k)];
    CallByRegisters(c, other);
    KernelAgainIsAgain(e, k, l);
    WantedIfReplayed(c, other, ret, mem, copied);
    RecordingServes(runId, pid, now, target, stops);
    BeginOnTrack(runId2, pid2, now2, target2, queue, rec.w.payload);
    BeginFields(runId2, pid2, now2, target2, queue, rec.w.payload);
    OneWanted(CallOf(e, k));
    EntryEffect(begin, e, enter2, live, liveCopied);
    CarriesNo(queue[0], CallOf(e, k), rec.w.payload);
    FirstServes(queue, e.no);
    QueuedCallReproduced(RStep(begin, EntryTick(e, enter2, live, liveCopied)), e, k, l);
  }

  lemma WantedIfReplayed(c: KernelCall, other: Args, ret: int, mem: Memory, copied: nat)
    requires var n := Stored(c, ret); Replayed(c, ret) && (n > 0 ==> Mapped(mem, Dest(c), n) && copied >= n)
    ensures var e := EntryOf(c, other); IsReplayable(e.no) && Wanted(Call(e, ret, CallData(e, ret, mem, copied)))
  {
    hide Mapped;
    KeptOf(c, other, ret, mem, copied);
    hide CallData;
  }

  lemma OneWanted(c: Call)
    requires IsReplayable(c.entry.no) && Wanted(c)
    ensures WantedCalls([c]) == [c]
  {
    assert [c][1..] == [];
  }

  lemma FirstServes(queue: seq<ReplayEvent>, no: int)
    requires IsReplayable(no) && queue != [] && queue[0].no == no
    ensures Candidate(queue, 0, no) == Some(queue[0])
  {
  }
}
