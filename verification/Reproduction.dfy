/** Replay reproduces the run: a deterministic program under the recorder and under the replayer. */
module Reproduction {
  import opened CText
  import opened Sha256
  import opened ChildMemory
  import opened TraceEvent
  import opened TraceLog
  import opened ReplayQueue
  import opened Ptrace
  import opened Recorder
  import opened Replayer
  import opened Verifier
  import opened DriftDetection
  import opened EventDecode
  import opened TraceText
  import opened TraceReader
  import opened TraceShape
  import opened Pipeline
  import opened Alignment
  import opened Metadata
  import opened Programs

  // ---------- the replayed run ----------

  /** The states the program goes through when the replayer stands between it and the kernel. */
  function ReplayTrajectory<P>(t: Program<P>, p: P, r: RState, ls: seq<Served>): seq<P>
    decreases |ls|
  {
    if ls == [] || !t.act(p).Invoke? then [p]
    else
      var e, l := t.act(p).entry, ls[0];
      var r1 := RRun(r, IntoCall(e, l));
      var back := Resumed(r1, l.ret, l.mem, l.copied);
      [p] + ReplayTrajectory(t, t.resume(p, back.ret, back.mem), RStep(r1, ExitTick(e, l)), ls[1..])
  }

  function ReplayTicks<P>(t: Program<P>, p: P, r: RState, ls: seq<Served>, f: Closing): seq<Tick>
    decreases |ls|
  {
    if !t.act(p).Invoke? then EndTicks(t.act(p), f)
    else if ls == [] then []
    else
      var e, l := t.act(p).entry, ls[0];
      var r1 := RRun(r, IntoCall(e, l));
      var back := Resumed(r1, l.ret, l.mem, l.copied);
      CallTicks(e, l) + ReplayTicks(t, t.resume(p, back.ret, back.mem), RStep(r1, ExitTick(e, l)), ls[1..], f)
  }

  // ---------- what the live kernel must do again ----------

  /** Memory agrees outside the recorded buffer. */
  predicate AgreesOutside(live: Memory, mem: Memory, addr: nat, len: nat) {
    live.Keys == mem.Keys && forall a :: a in mem && !(addr <= a < addr + len) ==> live[a] == mem[a]
  }

  /** A call the queue holds may be answered with any result and any bytes in its recorded buffer; any
      other call is answered as it was when recorded. */
  predicate Again(e: Entry, k: Served, l: Served) {
    var c := CallOf(e, k);
    if IsReplayable(e.no) && Wanted(c) then
      var len := if c.data.Some? then |c.data.value| else 0;
      AgreesOutside(l.mem, k.mem, PayloadAddr(e), len) && l.copied >= len
    else l.ret == k.ret && l.mem == k.mem
  }

  predicate AllAgain<P>(t: Program<P>, p: P, ks: seq<Served>, ls: seq<Served>)
    requires |ks| == |ls|
    decreases |ks|
  {
    ks == [] || !t.act(p).Invoke? ||
    (Again(t.act(p).entry, ks[0], ls[0]) && AllAgain(t, t.resume(p, ks[0].ret, ks[0].mem), ks[1..], ls[1..]))
  }

  // ---------- the queue holds the recorded results ----------

  function WantedCalls(calls: seq<Call>): seq<Call> {
    if calls == [] then []
    else (if IsReplayable(calls[0].entry.no) && Wanted(calls[0]) then [calls[0]] else []) + WantedCalls(calls[1..])
  }

  /** The queued event carries the call's result, and its payload reads back as the call's bytes. */
  predicate Carries(q: ReplayEvent, c: Call, store: seq<byte>) {
    && q.no == c.entry.no && q.ret == c.ret
    && (c.data.None? ==> q.length == 0)
    && (c.data.Some? ==> q.length == |c.data.value| > 0
                         && ReadPayload(store, q.offset, q.length) == Some(c.data.value))
  }

  predicate CarriesAll(queue: seq<ReplayEvent>, calls: seq<Call>, store: seq<byte>) {
    |queue| == |calls| && forall i :: 0 <= i < |queue| ==> Carries(queue[i], calls[i], store)
  }

  lemma EventCarries(e: Event, c: Call, file: seq<byte>)
    requires Tells(e, c, file) && QueueEntry(e).Some? && (e.payload.Some? ==> e.payload.value.length > 0)
    ensures Carries(QueueEntry(e).value, c, file)
  {
    hide SyscallName, Hash.HexDigest, ReadPayload;
  }

  lemma {:induction false} WantedCallsAppend(calls: seq<Call>, c: Call)
    ensures WantedCalls(calls + [c]) ==
            WantedCalls(calls) + if IsReplayable(c.entry.no) && Wanted(c) then [c] else []
  {
    hide Wanted, IsReplayable;
    if calls == [] {
      assert [c][1..] == [];
    } else {
      var all, rest := calls + [c], calls[1..];
      assert all[0] == calls[0] && all[1..] == rest + [c];
      WantedCallsAppend(rest, c);
    }
  }

  lemma {:induction false} QueueCarries(events: seq<Event>, calls: seq<Call>, file: seq<byte>)
    requires TellsAll(events, calls, file) && PayloadsNonempty(events)
    ensures CarriesAll(QueueOfEvents(events), WantedCalls(calls), file)
  {
    hide Tells, QueueEntry, Wanted, IsReplayable, WantedCalls, Carries;
    if events == [] {
      NothingWanted();
    } else {
      var p, e, q, c := events[..|events| - 1], events[|events| - 1], calls[..|calls| - 1], calls[|calls| - 1];
      QueueCarries(p, q, file);
      WantedCallsAppend(q, c);
      assert calls == q + [c];
      EventOfCall(e, c, file);
      if QueueEntry(e).Some? {
        TellsSyscall(e, c, file);
        EventCarries(e, c, file);
      }
    }
  }

  lemma TellsSyscall(e: Event, c: Call, file: seq<byte>)
    requires Tells(e, c, file)
    ensures e.Syscall?
  {
  }

  lemma NothingWanted()
    ensures WantedCalls([]) == []
  {
  }

  lemma {:induction false} WantedNos(calls: seq<Call>)
    ensures var w := WantedCalls(calls);
            && |QueuedNos(QCalls(calls))| == |w|
            && forall i :: 0 <= i < |w| ==> QueuedNos(QCalls(calls))[i] == w[i].entry.no
  {
    hide Wanted, IsReplayable;
    if calls != [] {
      var rest := calls[1..];
      WantedNos(rest);
      if IsReplayable(calls[0].entry.no) {
        var all := [QCall(calls[0].entry.no, Wanted(calls[0]))] + QCalls(rest);
        assert all[1..] == QCalls(rest);
      } else {
        assert [] + QCalls(rest) == QCalls(rest);
      }
    }
  }

  // ---------- one call ----------

  /** Laying the recorded bytes over the live memory gives back the recorded memory. */
  lemma OverlayRestores(live: Memory, mem: Memory, addr: nat, d: seq<byte>)
    requires Mapped(mem, addr, |d|) && d == BytesAt(mem, addr, |d|) && AgreesOutside(live, mem, addr, |d|)
    ensures Overlay(live, addr, d) == mem
  {
    assert Overlay(live, addr, d).Keys == mem.Keys;
  }

  lemma KeptBytes(e: Entry, ret: int, mem: Memory, copied: nat)
    ensures var d := CallData(e, ret, mem, copied);
            d.Some? ==> Mapped(mem, PayloadAddr(e), |d.value|) && d.value == BytesAt(mem, PayloadAddr(e), |d.value|)
  {
  }

  /** A queued call: whatever the live kernel did, the program resumes as when recorded. */
  lemma QueuedCallReproduced(r: RState, e: Entry, k: Served, l: Served)
    requires r.entry == e && r.active.Some? && Carries(r.active.value, CallOf(e, k), r.store)
    requires IsReplayable(e.no) && Wanted(CallOf(e, k)) && Again(e, k, l)
    ensures Resumed(r, l.ret, l.mem, l.copied) == Resumption(k.ret, k.mem)
  {
    hide CallData, Overlay, BytesAt, Mapped, PayloadAddr, Wanted, IsReplayable;
    match CallOf(e, k).data
    case None =>
      assert l.mem == k.mem;
    case Some(d) =>
      assert d[..|d|] == d;
      KeptBytes(e, k.ret, k.mem, k.copied);
      hide AgreesOutside;
      OverlayRestores(l.mem, k.mem, PayloadAddr(e), d);
  }

  lemma {:induction false} RunsJoin(r: RState, a: seq<Tick>, b: seq<Tick>)
    ensures RRun(r, a + b) == RRun(RRun(r, a), b) && Lives(r, a + b) == Lives(r, a) + Lives(RRun(r, a), b)
    decreases |a|
  {
    hide RStep, ExitOf;
    if a == [] {
      assert a + b == b;
    } else {
      assert (a + b)[1..] == a[1..] + b;
      RunsJoin(RStep(r, a[0]), a[1..], b);
      assert AsSeq(ExitOf(r, a[0])) + (Lives(RStep(r, a[0]), a[1..]) + Lives(RRun(r, a), b))
          == Lives(r, a) + Lives(RRun(r, a), b);
    }
  }

  /** Two states that differ in what has been written. */
  predicate SameButWriter(r: RState, v: RState) {
    && v.inSyscall == r.inSyscall && v.entry == r.entry && v.done == r.done && v.outcome == r.outcome
    && v.queue == r.queue && v.store == r.store && v.cursor == r.cursor && v.active == r.active
  }

  /** Other stops leave everything but the file as it is. */
  lemma {:induction false} OthersEffect(r: RState, ms: seq<Moment>)
    requires Following(r) && !r.done
    ensures var v := RRun(r, OtherTicks(ms));
            Following(v) && SameButWriter(r, v) && Lives(r, OtherTicks(ms)) == []
    decreases |ms|
  {
    hide Following, AppendHooks, Seen, Strayed;
    if ms != [] {
      var t := Tick(ms[0].now, ms[0].hooks, OtherStop);
      StepFollows(r, t);
      assert OtherTicks(ms)[1..] == OtherTicks(ms[1..]);
      OthersEffect(RStep(r, t), ms[1..]);
      assert ExitOf(r, t) == None;
    }
  }

  lemma OneTick(r: RState, a: Tick)
    ensures RRun(r, [a]) == RStep(r, a) && Lives(r, [a]) == AsSeq(ExitOf(r, a))
  {
    hide RStep, ExitOf;
    assert [a][1..] == [];
  }

  /** The entry stop: what the replayer remembers of it. */
  lemma EntryEffect(r: RState, e: Entry, m: Moment, mem: Memory, copied: nat)
    requires Following(r) && !r.done && !r.inSyscall
    ensures var t := EntryTick(e, m, mem, copied);
            var r1 := RStep(r, t);
            && Following(r1) && !r1.done && r1.inSyscall && r1.entry == e && r1.cursor == r.cursor
            && r1.queue == r.queue && r1.store == r.store && r1.outcome == r.outcome
            && r1.active == Candidate(r.queue, r.cursor, e.no) && ExitOf(r, t) == None
  {
    hide Following, AppendHooks, Seen, Strayed;
    StepFollows(r, EntryTick(e, m, mem, copied));
  }

  /** The stops up to the exit of a call, or to an end in it, other stops included. */
  lemma IntoEffect(r: RState, e: Entry, before: seq<Moment>, enter: Moment, during: seq<Moment>, mem: Memory,
                   copied: nat)
    requires Following(r) && !r.done && !r.inSyscall
    ensures var ticks := IntoStops(e, before, enter, during, mem, copied);
            var r1 := RRun(r, ticks);
            && Following(r1) && !r1.done && r1.inSyscall && r1.entry == e && r1.cursor == r.cursor
            && r1.queue == r.queue && r1.store == r.store && r1.outcome == r.outcome
            && r1.active == Candidate(r.queue, r.cursor, e.no) && Lives(r, ticks) == []
  {
    hide Following, RRun, Lives, RStep, ExitOf, OtherTicks, Candidate;
    var a, b, c := OtherTicks(before), [EntryTick(e, enter, mem, copied)], OtherTicks(during);
    OthersEffect(r, before);
    var ra := RRun(r, a);
    OneTick(ra, b[0]);
    EntryEffect(ra, e, enter, mem, copied);
    OthersEffect(RRun(ra, b), during);
    RunsJoin(r, a, b);
    RunsJoin(r, a + b, c);
  }

  lemma IntoCallEffect(r: RState, e: Entry, l: Served)
    requires Following(r) && !r.done && !r.inSyscall
    ensures var r1 := RRun(r, IntoCall(e, l));
            && Following(r1) && !r1.done && r1.inSyscall && r1.entry == e && r1.cursor == r.cursor
            && r1.queue == r.queue && r1.store == r.store && r1.outcome == r.outcome
            && r1.active == Candidate(r.queue, r.cursor, e.no) && Lives(r, IntoCall(e, l)) == []
  {
    hide Following, RRun, Lives, IntoStops, Candidate;
    IntoEffect(r, e, l.before, l.enter, l.during, l.mem, l.copied);
  }

  lemma ExitEffect(r: RState, e: Entry, l: Served)
    requires Following(r) && !r.done && r.inSyscall && r.entry == e
    ensures var r2 := RStep(r, ExitTick(e, l));
            && Following(r2) && !r2.done && !r2.inSyscall && r2.queue == r.queue && r2.store == r.store
            && r2.outcome == r.outcome && r2.cursor == r.cursor + (if r.active.Some? then 1 else 0)
            && ExitOf(r, ExitTick(e, l)) == Some(LiveCall(e.no, r.active.Some?, r.cursor))
  {
    hide Following, AppendHooks, Seen, Strayed, EmitSyscall, ReadPayload;
    StepFollows(r, ExitTick(e, l));
  }

  /** A whole call, seen from outside. */
  lemma CallEffect(r: RState, e: Entry, l: Served, rest: seq<Tick>)
    requires Following(r) && !r.done && !r.inSyscall
    ensures var r1 := RRun(r, IntoCall(e, l));
            var r2 := RStep(r1, ExitTick(e, l));
            && RRun(r, CallTicks(e, l) + rest) == RRun(r2, rest)
            && Lives(r, CallTicks(e, l) + rest) == AsSeq(ExitOf(r1, ExitTick(e, l))) + Lives(r2, rest)
  {
    hide Following, RRun, Lives, RStep, ExitOf, IntoCall, Candidate;
    IntoCallEffect(r, e, l);
    var r1 := RRun(r, IntoCall(e, l));
    OneTick(r1, ExitTick(e, l));
    RunsJoin(r, IntoCall(e, l), [ExitTick(e, l)]);
    RunsJoin(r, CallTicks(e, l), rest);
    assert [] + Lives(r1, [ExitTick(e, l)]) == Lives(r1, [ExitTick(e, l)]);
  }

  /** What is under the cursor when a call comes, and so what it receives. */
  lemma CandidateIsOwn(queue: seq<ReplayEvent>, cursor: nat, c: Call, rest: seq<Call>, store: seq<byte>)
    requires cursor <= |queue| && CarriesAll(queue[cursor..], WantedCalls([c] + rest), store)
    requires NoTheft(QCalls([c] + rest))
    ensures var candidate := Candidate(queue, cursor, c.entry.no);
            && (IsReplayable(c.entry.no) && Wanted(c) ==>
                 candidate.Some? && Carries(candidate.value, c, store) && cursor < |queue|
                 && CarriesAll(queue[cursor + 1..], WantedCalls(rest), store))
            && (!(IsReplayable(c.entry.no) && Wanted(c)) ==>
                 candidate.None? && CarriesAll(queue[cursor..], WantedCalls(rest), store))
            && NoTheft(QCalls(rest))
  {
    hide Wanted, IsReplayable, WantedCalls, QCalls, NoTheft, Carries;
    ConsParts(c, rest);
    WantedNos(rest);
    if IsReplayable(c.entry.no) {
      NoTheftCons(QCalls([c] + rest));
      assert QCalls([c] + rest)[1..] == QCalls(rest);
    }
    var w := WantedCalls(rest);
    if IsReplayable(c.entry.no) && Wanted(c) {
      assert Carries(queue[cursor..][0], ([c] + w)[0], store);
      CarriesNo(queue[cursor], c, store);
      forall i | 0 <= i < |w|
        ensures Carries(queue[cursor + 1..][i], w[i], store)
      {
        assert Carries(queue[cursor..][i + 1], ([c] + w)[i + 1], store);
      }
    } else if IsReplayable(c.entry.no) && cursor < |queue| {
      assert Carries(queue[cursor..][0], w[0], store);
      CarriesNo(queue[cursor], w[0], store);
    }
  }

  lemma CarriesNo(q: ReplayEvent, c: Call, store: seq<byte>)
    requires Carries(q, c, store)
    ensures q.no == c.entry.no
  {
  }

  lemma ConsParts(c: Call, rest: seq<Call>)
    ensures WantedCalls([c] + rest) == (if IsReplayable(c.entry.no) && Wanted(c) then [c] else []) + WantedCalls(rest)
    ensures QCalls([c] + rest) == AsQCall(c) + QCalls(rest)
    ensures !(IsReplayable(c.entry.no) && Wanted(c)) ==> WantedCalls([c] + rest) == WantedCalls(rest)
    ensures !IsReplayable(c.entry.no) ==> QCalls([c] + rest) == QCalls(rest)
  {
    hide Wanted, IsReplayable;
    assert ([c] + rest)[1..] == rest;
  }

  // ---------- the whole run ----------

  lemma EndTickEffect(r: RState, a: Action, m: Moment)
    requires !r.done && !a.Invoke?
    ensures var t := Tick(m.now, m.hooks, EndStop(a));
            var v := RStep(r, t);
            v.cursor == r.cursor && v.queue == r.queue && v.outcome == Some(OutcomeOf(a)) && ExitOf(r, t) == None
  {
    hide EmitProcess;
  }

  /** The stops up to the end move no cursor, whichever call is open at the end. */
  lemma LastStopsEffect(r: RState, a: Action, f: Closing)
    requires Following(r) && !r.done && !r.inSyscall && !a.Invoke?
    ensures var v := RRun(r, LastStops(a, f));
            && !v.done && v.cursor == r.cursor && v.queue == r.queue && Lives(r, LastStops(a, f)) == []
  {
    hide Following, RRun, Lives, IntoStops, OtherTicks, Candidate;
    if a.last.None? {
      OthersEffect(r, f.before);
    } else {
      IntoEffect(r, a.last.value, f.before, f.enter, f.during, f.mem, f.copied);
    }
  }

  lemma EndEffect(r: RState, a: Action, f: Closing)
    requires Following(r) && !r.done && !r.inSyscall && !a.Invoke?
    ensures var v := RRun(r, EndTicks(a, f));
            && v.cursor == r.cursor && v.queue == r.queue && v.outcome == Some(OutcomeOf(a))
            && Lives(r, EndTicks(a, f)) == []
  {
    hide Following, RRun, Lives, RStep, ExitOf, LastStops;
    var first, last := LastStops(a, f), Tick(f.end.now, f.end.hooks, EndStop(a));
    LastStopsEffect(r, a, f);
    EndTickEffect(RRun(r, first), a, f.end);
    OneTick(RRun(r, first), last);
    RunsJoin(r, first, [last]);
  }

  /** In lockstep from any point of the run: the same states, every clock and random read served, the
      queue used up, the same end. */
  lemma {:induction false} Lockstep<P>(t: Program<P>, p: P, ks: seq<Served>, ls: seq<Served>, f: Closing, r: RState)
    requires |ks| == |ls| && AllAgain(t, p, ks, ls)
    requires Following(r) && !r.done && !r.inSyscall && r.cursor <= |r.queue| && r.outcome.None?
    requires CarriesAll(r.queue[r.cursor..], WantedCalls(CallList(t, p, ks)), r.store)
    requires NoTheft(QCalls(CallList(t, p, ks)))
    ensures ReplayTrajectory(t, p, r, ls) == Trajectory(t, p, ks)
    ensures ReplayTicks(t, p, r, ls, f) == TicksAlong(t, p, ks, ls, f)
    ensures var v := RRun(r, ReplayTicks(t, p, r, ls, f));
            v.cursor == |v.queue| && v.outcome == EndOf(t, p, ks)
    ensures forall c :: c in Lives(r, ReplayTicks(t, p, r, ls, f)) ==> !Strayed(c)
    decreases |ks|
  {
    hide Following, RStep, ExitOf, Strayed, CarriesAll, NoTheft, WantedCalls, QCalls, Again, Resumed, CallData, RRun;
    hide Lives;
    hide IntoCall, CallTicks, EndTicks, OutcomeOf, Candidate;
    if !t.act(p).Invoke? {
      EndEffect(r, t.act(p), f);
      AllUsed(r, t, p, ks);
    } else if ks == [] {
      AllUsed(r, t, p, ks);
      NoTicks(r);
    } else {
      var e, k, l := t.act(p).entry, ks[0], ls[0];
      var r1 := RRun(r, IntoCall(e, l));
      var r2 := RStep(r1, ExitTick(e, l));
      var p' := t.resume(p, k.ret, k.mem);
      IntoCallEffect(r, e, l);
      ExitEffect(r1, e, l);
      CandidateIsOwn(r.queue, r.cursor, CallOf(e, k), CallList(t, p', ks[1..]), r.store);
      OneCallReproduced(r1, e, k, l);
      NotStrayed(r1, e, k);
      Lockstep(t, p', ks[1..], ls[1..], f, r2);
      CallEffect(r, e, l, ReplayTicks(t, p', r2, ls[1..], f));
    }
  }

  lemma NoTicks(r: RState)
    ensures RRun(r, []) == r && Lives(r, []) == []
  {
  }

  lemma AllUsed<P>(r: RState, t: Program<P>, p: P, ks: seq<Served>)
    requires r.cursor <= |r.queue| && CarriesAll(r.queue[r.cursor..], WantedCalls(CallList(t, p, ks)), r.store)
    requires ks == [] || !t.act(p).Invoke?
    ensures r.cursor == |r.queue|
  {
    NothingWanted();
  }

  /** Served or not, the program resumes from this call as it did when recorded. */
  lemma OneCallReproduced(r1: RState, e: Entry, k: Served, l: Served)
    requires r1.entry == e && Again(e, k, l)
    requires IsReplayable(e.no) && Wanted(CallOf(e, k)) ==>
               r1.active.Some? && Carries(r1.active.value, CallOf(e, k), r1.store)
    requires !(IsReplayable(e.no) && Wanted(CallOf(e, k))) ==> r1.active.None?
    ensures Resumed(r1, l.ret, l.mem, l.copied) == Resumption(k.ret, k.mem)
  {
    if IsReplayable(e.no) && Wanted(CallOf(e, k)) {
      hide Resumed, Again, Carries;
      QueuedCallReproduced(r1, e, k, l);
    }
  }

  lemma NotStrayed(r1: RState, e: Entry, k: Served)
    requires IsReplayable(e.no) && Wanted(CallOf(e, k)) ==> r1.active.Some?
    ensures !Strayed(LiveCall(e.no, r1.active.Some?, r1.cursor))
  {
  }

  // ---------- the theorem ----------

  lemma {:induction false} NoDriftLines(lines: seq<Line>)
    ensures Drifts(View(lines)) == []
  {
    hide HookLine, ViewEvent, ViewHook, IsDrift;
    if lines != [] {
      var p, l := lines[..|lines| - 1], lines[|lines| - 1];
      NoDriftLines(p);
      var v := View(lines);
      if l.Own? {
        EventIsNoDrift(l.event);
        assert v[..|v| - 1] == View(p);
      } else if HookLine(l.hook).Some? {
        HookIsNoDrift(l.hook);
        assert v[..|v| - 1] == View(p);
      } else {
        assert v == View(p);
      }
    }
  }

  lemma EventIsNoDrift(e: Event)
    ensures !IsDrift(ViewEvent(e))
  {
    hide SyscallName, ErrnoOf;
    assert "PROCESS"[0] == 'P' && "SYSCALL"[0] == 'S' && "DRIFT"[0] == 'D';
  }

  lemma HookIsNoDrift(h: HookEvent)
    ensures !IsDrift(ViewHook(h))
  {
    assert "SYNC"[0] == 'S' && "DRIFT"[0] == 'D';
  }

  lemma BeginFields(runId: string, pid: int, now: nat, target: string, queue: seq<ReplayEvent>, store: seq<byte>)
    ensures var r := Begin(runId, pid, now, target, queue, store);
            !r.done && !r.inSyscall && r.outcome.None? && r.cursor == 0 && r.queue == queue && r.store == store
  {
    hide EmitProcess;
  }

  lemma StartFields(runId: string, pid: int, now: nat, target: string)
    ensures var s := Start(runId, pid, now, target); !s.done && !s.inSyscall && s.outcome.None?
  {
    hide EmitProcess;
  }

  /** What a recording left behind for the replay: the results and the bytes of its wanted calls. */
  lemma RecordingServes(runId: string, pid: int, now: nat, target: string, ticks: seq<Tick>)
    requires Within(runId, pid, now, target, ticks)
    ensures var w := Run(Start(runId, pid, now, target), ticks).w;
            var queue := QueueOfText(FileText(w.lines));
            Intact(queue, w.payload) && CarriesAll(queue, WantedCalls(CallsOf(ticks, None)), w.payload)
  {
    hide Within, Run, Start, FileText, QueueOfText, QueueOfEvents, OwnEvents, CallsOf, WantedCalls;
    hide Chained, TellsAll, Tiled, PayloadsNonempty, CarriesAll, Intact;
    var rec := Run(Start(runId, pid, now, target), ticks);
    var own := OwnEvents(rec.w.lines);
    LoadOfRecording(runId, pid, now, target, ticks);
    RecordingIsFaithful(runId, pid, now, target, ticks);
    SoundIntact(rec, CallsOf(ticks, None));
    SyscallsNonempty(own);
    QueueOfSyscallEvents(own);
    QueueCarries(SyscallEvents(own), CallsOf(ticks, None), rec.w.payload);
  }

  lemma {:induction false} SyscallsNonempty(events: seq<Event>)
    requires PayloadsNonempty(events)
    ensures PayloadsNonempty(SyscallEvents(events))
  {
    if events != [] {
      var p, e := events[..|events| - 1], events[|events| - 1];
      assert events == p + [e];
      PrefixNonempty(p, e);
      SyscallsNonempty(p);
    }
  }

  /** From the same start state: the two runs of ReplayReproducesRun, whatever started them. */
  lemma SameStartReproduces<P>(t: Program<P>, p: P, ks: seq<Served>, ls: seq<Served>, f: Closing, g: Closing,
                               runId: string, pid: int, now: nat, target: string,
                               runId2: string, pid2: int, now2: nat, target2: string, ahead: nat, ahead2: nat)
    requires |ks| == |ls| && AllAgain(t, p, ks, ls) && NoTheft(QCalls(CallList(t, p, ks)))
    requires LegibleRun(runId, pid, now, target, RecordTicks(t, p, ks, f)) && DataTotal(CallList(t, p, ks)) <= LONG_MAX
    requires LegibleRun(runId2, pid2, now2, target2, TicksAlong(t, p, ks, ls, g))
    ensures var rec := Run(Start(runId, pid, now, target), RecordTicks(t, p, ks, f));
            var begin := Begin(runId2, pid2, now2, target2, QueueOfText(FileText(rec.w.lines)), rec.w.payload);
            var rep := RRun(begin, ReplayTicks(t, p, begin, ls, g));
            var a, b := LoadEvents(FileText(rec.w.lines), ahead), LoadEvents(FileText(rep.w.lines), ahead2);
            && ReplayTrajectory(t, p, begin, ls) == Trajectory(t, p, ks)
            && rep.outcome == rec.outcome == EndOf(t, p, ks)
            && a.Some? && b.Some? && FirstMismatch(a.value, b.value).None? && Drifts(b.value) == []
  {
    hide LegibleRun, Within, Run, Start, RRun, Begin, View, FileText, QueueOfText, CallList, WantedCalls, RecordTicks;
    hide ReplayTicks, TicksAlong, Following, OnTrack, CarriesAll, Intact, NoTheft, QCalls, Lives, Strayed;
    hide FirstMismatch;
    hide FirstStray, AllAgain, Trajectory, ReplayTrajectory, Drifts, LoadEvents, DataTotal, CallsOf, EndOf;
    var ticks := RecordTicks(t, p, ks, f);
    var rec := Run(Start(runId, pid, now, target), ticks);
    var queue := QueueOfText(FileText(rec.w.lines));
    var begin := Begin(runId2, pid2, now2, target2, queue, rec.w.payload);
    CallsOfRecordTicks(t, p, ks, f);
    LegibleIsWithin(runId, pid, now, target, ticks);
    RecordingServes(runId, pid, now, target, ticks);
    BeginOnTrack(runId2, pid2, now2, target2, queue, rec.w.payload);
    BeginFields(runId2, pid2, now2, target2, queue, rec.w.payload);
    assert queue[0..] == queue;
    Lockstep(t, p, ks, ls, g, begin);
    StartFields(runId, pid, now, target);
    RecordOutcome(t, p, ks, f, Start(runId, pid, now, target));
    var live := ReplayTicks(t, p, begin, ls, g);
    var lives := Lives(begin, live);
    assert forall i :: 0 <= i < |lives| ==> lives[i] in lives;
    DriftDetectionIsExact(runId, pid, now, target, ticks, runId2, pid2, now2, target2, live, ahead, ahead2);
    NoDriftInReplay(runId, pid, now, target, ticks, runId2, pid2, now2, target2, live, ahead2);
  }

  /** Replay reproduces the run.  For any deterministic program, recorded with arguments argv on any kernel ks
      and replayed on any kernel ls that answers the calls outside the queue as when recorded (and leaves
      the memory outside a queued call's recorded buffer as when recorded), whatever other stops there are in
      either run: if no unqueued recorded read can take the next queued event, the program goes through the
      same states if and only if it makes nothing of the arguments the replayer leaves out and of the
      environment in which the two runs differ.  Then it ends the same way, by the same exit code or the same
      signal, and the verifier finds no mismatch and no drift between the two files. */
  lemma ReplayReproducesRun<P>(t: Program<P>, argv: seq<string>, env: map<string, string>, env2: map<string, string>,
                               ks: seq<Served>, ls: seq<Served>, f: Closing, g: Closing,
                               out: string, pid: int, now: nat, out2: string, pid2: int, now2: nat, target2: string,
                               ahead: nat, ahead2: nat)
    requires argv != []
    requires var p := t.start(RecordLaunch(out, argv, env));
             && |ks| == |ls| && AllAgain(t, p, ks, ls) && NoTheft(QCalls(CallList(t, p, ks)))
             && LegibleRun(Basename(out), pid, now, argv[0], RecordTicks(t, p, ks, f))
             && DataTotal(CallList(t, p, ks)) <= LONG_MAX
             && LegibleRun(Basename(out2), pid2, now2, target2, TicksAlong(t, p, ks, ls, g))
    ensures var p, q := t.start(RecordLaunch(out, argv, env)), t.start(ReplayLaunch(out2, target2, env2));
            var rec := Run(Start(Basename(out), pid, now, argv[0]), RecordTicks(t, p, ks, f));
            var begin := Begin(Basename(out2), pid2, now2, target2, QueueOfText(FileText(rec.w.lines)), rec.w.payload);
            var rep := RRun(begin, ReplayTicks(t, q, begin, ls, g));
            var a, b := LoadEvents(FileText(rec.w.lines), ahead), LoadEvents(FileText(rep.w.lines), ahead2);
            && (ReplayTrajectory(t, q, begin, ls) == Trajectory(t, p, ks) <==> p == q)
            && (p == q ==>
                 && rep.outcome == rec.outcome == EndOf(t, p, ks)
                 && a.Some? && b.Some? && FirstMismatch(a.value, b.value).None? && Drifts(b.value) == [])
  {
    var p, q := t.start(RecordLaunch(out, argv, env)), t.start(ReplayLaunch(out2, target2, env2));
    var rec := Run(Start(Basename(out), pid, now, argv[0]), RecordTicks(t, p, ks, f));
    var begin := Begin(Basename(out2), pid2, now2, target2, QueueOfText(FileText(rec.w.lines)), rec.w.payload);
    FirstStates(t, p, q, ks, ls, begin);
    SameStartReproduces(t, p, ks, ls, f, g, Basename(out), pid, now, argv[0], Basename(out2), pid2, now2, target2,
                        ahead, ahead2);
    hide *;
  }

  lemma FirstStates<P>(t: Program<P>, p: P, q: P, ks: seq<Served>, ls: seq<Served>, r: RState)
    ensures var a, b := ReplayTrajectory(t, q, r, ls), Trajectory(t, p, ks);
            a != [] && b != [] && a[0] == q && b[0] == p
  {
    hide IntoCall, Resumed;
  }

  /** The replayer writes no DRIFT event. */
  lemma NoDriftInReplay(runId: string, pid: int, now: nat, target: string, ticks: seq<Tick>,
                        runId2: string, pid2: int, now2: nat, target2: string, live: seq<Tick>, ahead: nat)
    requires LegibleRun(runId, pid, now, target, ticks) && DataTotal(CallsOf(ticks, None)) <= LONG_MAX
    requires LegibleRun(runId2, pid2, now2, target2, live)
    ensures var rec := Run(Start(runId, pid, now, target), ticks);
            var begin := Begin(runId2, pid2, now2, target2, QueueOfText(FileText(rec.w.lines)), rec.w.payload);
            var b := LoadEvents(FileText(RRun(begin, live).w.lines), ahead);
            b.Some? && Drifts(b.value) == []
  {
    hide LegibleRun, Within, Run, Start, RRun, Begin, View, FileText, QueueOfText, QueueOfEvents, OwnEvents, QueueTyped;
    hide LoadEvents, LoadQuietly, DataTotal, CallsOf, Drifts;
    var rec := Run(Start(runId, pid, now, target), ticks);
    var queue := QueueOfEvents(OwnEvents(rec.w.lines));
    LegibleIsWithin(runId, pid, now, target, ticks);
    LoadOfRecording(runId, pid, now, target, ticks);
    QueueCanBeReplayed(runId, pid, now, target, ticks);
    ReplayLoads(runId2, pid2, now2, target2, queue, rec.w.payload, live, ahead);
    NoDriftLines(RRun(Begin(runId2, pid2, now2, target2, queue, rec.w.payload), live).w.lines);
  }

  /** A kernel that answers as when recorded is one that answers again. */
  lemma {:induction false} SameKernelAgain<P>(t: Program<P>, p: P, ks: seq<Served>)
    ensures AllAgain(t, p, ks, ks)
    decreases |ks|
  {
    if ks != [] && t.act(p).Invoke? {
      SameKernelAgain(t, t.resume(p, ks[0].ret, ks[0].mem), ks[1..]);
    }
  }
}
