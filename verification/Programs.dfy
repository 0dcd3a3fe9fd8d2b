/** Deterministic programs: what starts them, the stops a tracer sees of them, and their recorded runs. */
module Programs {
  import opened CText
  import opened ChildMemory
  import opened TraceEvent
  import opened TraceLog
  import opened Ptrace
  import opened Recorder
  import opened Metadata

  // ---------- programs ----------

  /** What exec hands over. */
  datatype Launch = Launch(argv: seq<string>, env: map<string, string>)

  /** The environment a tracer gives the program, over the one it was itself started in. */
  function TracedEnv(env: map<string, string>, out: string, mode: string): map<string, string> {
    env["ADR_TRACE_DIR" := out]["ADR_RUN_ID" := Basename(out)]["ADR_RUN_MODE" := mode]
  }

  /** The recorder passes the arguments on. */
  function RecordLaunch(out: string, argv: seq<string>, env: map<string, string>): Launch {
    Launch(argv, TracedEnv(env, out, "record"))
  }

  /** The replayer knows the target and no arguments. */
  function ReplayLaunch(out: string, target: string, env: map<string, string>): Launch {
    Launch([target], TracedEnv(env, out, "replay"))
  }

  /** A program makes a call that comes back, or one that it does not come back from: exit_group when it
      leaves, kill when it brings a deadly signal on itself.  Without such a call the end comes from
      elsewhere, from another thread or process. */
  datatype Action =
    | Invoke(entry: Entry)
    | Leave(code: int, last: Option<Entry>)
    | Die(signal: int, last: Option<Entry>)

  /** A deterministic program: from its user-mode state P, which holds everything it can look at, it does
      the next thing; it goes on from a call's result and the memory as the call left it.  Both tracers
      resume it without the signals it was stopped for, so no handler ever runs. */
  datatype Program<!P> = Program(start: Launch -> P, act: P -> Action, resume: (P, int, Memory) -> P)

  /** When a stop comes, and what the hook has written by then. */
  datatype Moment = Moment(now: nat, hooks: seq<HookEvent>)

  /** What the kernel did with one call, and the other stops (for signals the tracers discard, and for exec)
      before it and during it. */
  datatype Served = Served(before: seq<Moment>, enter: Moment, during: seq<Moment>, leave: Moment, ret: int,
                           mem: Memory, copied: nat)

  /** The end of a run: the other stops and, if it ends in a call, that call's entry stop; then the end. */
  datatype Closing = Closing(before: seq<Moment>, enter: Moment, during: seq<Moment>, mem: Memory, copied: nat,
                             end: Moment)

  function OtherTicks(ms: seq<Moment>): seq<Tick> {
    if ms == [] then [] else [Tick(ms[0].now, ms[0].hooks, OtherStop)] + OtherTicks(ms[1..])
  }

  /** What rax holds at an entry stop: -ENOSYS. */
  const ENTRY_RAX := -38

  function EntryTick(e: Entry, m: Moment, mem: Memory, copied: nat): Tick {
    Tick(m.now, m.hooks, SyscallStop(Regs(e.no, ENTRY_RAX, e.args), mem, copied))
  }

  function ExitTick(e: Entry, k: Served): Tick {
    Tick(k.leave.now, k.leave.hooks, SyscallStop(Regs(e.no, k.ret, e.args), k.mem, k.copied))
  }

  /** An entry stop and the other stops around it. */
  function IntoStops(e: Entry, before: seq<Moment>, enter: Moment, during: seq<Moment>, mem: Memory,
                     copied: nat): seq<Tick> {
    OtherTicks(before) + [EntryTick(e, enter, mem, copied)] + OtherTicks(during)
  }

  /** Up to the exit stop of a call, and that stop. */
  function IntoCall(e: Entry, k: Served): seq<Tick> { IntoStops(e, k.before, k.enter, k.during, k.mem, k.copied) }

  function CallTicks(e: Entry, k: Served): seq<Tick> { IntoCall(e, k) + [ExitTick(e, k)] }

  function EndStop(a: Action): Stop
    requires !a.Invoke?
  {
    if a.Leave? then Exited(a.code) else Signaled(a.signal)
  }

  /** Up to the end stop: the call that ends the run is entered and never left. */
  function LastStops(a: Action, f: Closing): seq<Tick>
    requires !a.Invoke?
  {
    if a.last.None? then OtherTicks(f.before)
    else IntoStops(a.last.value, f.before, f.enter, f.during, f.mem, f.copied)
  }

  function EndTicks(a: Action, f: Closing): seq<Tick>
    requires !a.Invoke?
  {
    LastStops(a, f) + [Tick(f.end.now, f.end.hooks, EndStop(a))]
  }

  // ---------- the recorded run ----------

  /** The states the program goes through when the kernel answers as in ks. */
  function Trajectory<P>(t: Program<P>, p: P, ks: seq<Served>): seq<P>
    decreases |ks|
  {
    if ks == [] || !t.act(p).Invoke? then [p]
    else [p] + Trajectory(t, t.resume(p, ks[0].ret, ks[0].mem), ks[1..])
  }

  /** The stops of a run that goes through the states the kernel ks brings about, and at which the kernel ls
      speaks: with ls the same as ks, the recorded run. */
  function TicksAlong<P>(t: Program<P>, p: P, ks: seq<Served>, ls: seq<Served>, f: Closing): seq<Tick>
    requires |ks| == |ls|
    decreases |ks|
  {
    if !t.act(p).Invoke? then EndTicks(t.act(p), f)
    else if ks == [] then []
    else CallTicks(t.act(p).entry, ls[0]) + TicksAlong(t, t.resume(p, ks[0].ret, ks[0].mem), ks[1..], ls[1..], f)
  }

  function RecordTicks<P>(t: Program<P>, p: P, ks: seq<Served>, f: Closing): seq<Tick> { TicksAlong(t, p, ks, ks, f) }

  function CallOf(e: Entry, k: Served): Call { Call(e, k.ret, CallData(e, k.ret, k.mem, k.copied)) }

  function CallList<P>(t: Program<P>, p: P, ks: seq<Served>): seq<Call>
    decreases |ks|
  {
    if ks == [] || !t.act(p).Invoke? then []
    else [CallOf(t.act(p).entry, ks[0])] + CallList(t, t.resume(p, ks[0].ret, ks[0].mem), ks[1..])
  }

  lemma OtherSkipped(t: Tick, rest: seq<Tick>, pending: Option<Entry>)
    requires t.stop.OtherStop?
    ensures CallsOf([t] + rest, pending) == CallsOf(rest, pending)
  {
    hide CallData;
    assert ([t] + rest)[1..] == rest;
  }

  /** Other stops complete no call. */
  lemma {:induction false} CallsAfterOthers(ms: seq<Moment>, rest: seq<Tick>, pending: Option<Entry>)
    ensures CallsOf(OtherTicks(ms) + rest, pending) == CallsOf(rest, pending)
  {
    hide CallsOf;
    if ms == [] {
      assert OtherTicks(ms) + rest == rest;
    } else {
      var t := Tick(ms[0].now, ms[0].hooks, OtherStop);
      assert OtherTicks(ms) + rest == [t] + (OtherTicks(ms[1..]) + rest);
      OtherSkipped(t, OtherTicks(ms[1..]) + rest, pending);
      CallsAfterOthers(ms[1..], rest, pending);
    }
  }

  /** An entry stop makes a call pending. */
  lemma CallsAfterEntry(e: Entry, before: seq<Moment>, enter: Moment, during: seq<Moment>, mem: Memory, copied: nat,
                        rest: seq<Tick>)
    ensures CallsOf(IntoStops(e, before, enter, during, mem, copied) + rest, None) == CallsOf(rest, Some(e))
  {
    hide CallData, OtherTicks;
    var later := OtherTicks(during) + rest;
    var middle := [EntryTick(e, enter, mem, copied)] + later;
    assert IntoStops(e, before, enter, during, mem, copied) + rest == OtherTicks(before) + middle;
    CallsAfterOthers(before, middle, None);
    assert middle[1..] == later;
    CallsAfterOthers(during, rest, Some(Entry(e.no, e.args)));
  }

  lemma CallsOfCall(e: Entry, k: Served, rest: seq<Tick>)
    ensures CallsOf(CallTicks(e, k) + rest, None) == [CallOf(e, k)] + CallsOf(rest, None)
  {
    hide CallData, IntoStops;
    var last := [ExitTick(e, k)] + rest;
    assert CallTicks(e, k) + rest == IntoCall(e, k) + last;
    CallsAfterEntry(e, k.before, k.enter, k.during, k.mem, k.copied, last);
    assert last[1..] == rest;
  }

  /** The call that ends the run never completes. */
  lemma CallsOfEnd(a: Action, f: Closing)
    requires !a.Invoke?
    ensures CallsOf(EndTicks(a, f), None) == []
  {
    hide OtherTicks, IntoStops;
    var end := [Tick(f.end.now, f.end.hooks, EndStop(a))];
    if a.last.None? {
      CallsAfterOthers(f.before, end, None);
    } else {
      CallsAfterEntry(a.last.value, f.before, f.enter, f.during, f.mem, f.copied, end);
    }
  }

  lemma {:induction false} CallsOfRecordTicks<P>(t: Program<P>, p: P, ks: seq<Served>, f: Closing)
    ensures CallsOf(RecordTicks(t, p, ks, f), None) == CallList(t, p, ks)
    decreases |ks|
  {
    hide CallOf, CallTicks, EndTicks;
    if !t.act(p).Invoke? {
      CallsOfEnd(t.act(p), f);
    } else if ks != [] {
      var next := t.resume(p, ks[0].ret, ks[0].mem);
      CallsOfCall(t.act(p).entry, ks[0], RecordTicks(t, next, ks[1..], f));
      CallsOfRecordTicks(t, next, ks[1..], f);
    }
  }

  // ---------- how a run ends ----------

  function OutcomeOf(a: Action): Outcome
    requires !a.Invoke?
  {
    if a.Leave? then Outcome(a.code, 0) else Outcome(128 + a.signal, a.signal)
  }

  /** The outcome of the run, if it came to an end. */
  function EndOf<P>(t: Program<P>, p: P, ks: seq<Served>): Option<Outcome>
    decreases |ks|
  {
    if !t.act(p).Invoke? then Some(OutcomeOf(t.act(p)))
    else if ks == [] then None
    else EndOf(t, t.resume(p, ks[0].ret, ks[0].mem), ks[1..])
  }

  /** The run came to an end within a call, as it does by exit_group. */
  predicate EndsInCall<P>(t: Program<P>, p: P, ks: seq<Served>)
    decreases |ks|
  {
    if !t.act(p).Invoke? then t.act(p).last.Some?
    else ks != [] && EndsInCall(t, t.resume(p, ks[0].ret, ks[0].mem), ks[1..])
  }

  // ---------- the recorder's side of the run ----------

  lemma {:induction false} RecordsJoin(s: State, a: seq<Tick>, b: seq<Tick>)
    ensures Run(s, a + b) == Run(Run(s, a), b)
    decreases |a|
  {
    hide Step;
    if a == [] {
      assert a + b == b;
    } else {
      assert (a + b)[1..] == a[1..] + b;
      RecordsJoin(Step(s, a[0]), a[1..], b);
    }
  }

  lemma {:induction false} RecordOthers(s: State, ms: seq<Moment>)
    requires !s.done
    ensures var v := Run(s, OtherTicks(ms)); !v.done && v.inSyscall == s.inSyscall && v.outcome == s.outcome
    decreases |ms|
  {
    hide AppendHooks;
    if ms != [] {
      assert OtherTicks(ms)[1..] == OtherTicks(ms[1..]);
      RecordOthers(Step(s, OtherTicks(ms)[0]), ms[1..]);
    }
  }

  lemma RecordStop(s: State, t: Tick)
    requires !s.done && t.stop.SyscallStop?
    ensures var v := Run(s, [t]); !v.done && v.inSyscall == !s.inSyscall && v.outcome == s.outcome
  {
    hide EmitSyscall, CallData, AppendHooks, Hash.HexDigest;
    assert [t][1..] == [];
  }

  /** An entry stop, with other stops around it: a call is open and nothing has ended. */
  lemma RecordInto(s: State, e: Entry, before: seq<Moment>, enter: Moment, during: seq<Moment>, mem: Memory,
                   copied: nat)
    requires !s.done && !s.inSyscall
    ensures var v := Run(s, IntoStops(e, before, enter, during, mem, copied));
            !v.done && v.inSyscall && v.outcome == s.outcome
  {
    hide Run, OtherTicks;
    var a, b, c := OtherTicks(before), [EntryTick(e, enter, mem, copied)], OtherTicks(during);
    RecordOthers(s, before);
    RecordStop(Run(s, a), b[0]);
    RecordsJoin(s, a, b);
    RecordOthers(Run(s, a + b), during);
    RecordsJoin(s, a + b, c);
  }

  lemma RecordCall(s: State, e: Entry, k: Served)
    requires !s.done && !s.inSyscall
    ensures var v := Run(s, CallTicks(e, k)); !v.done && !v.inSyscall && v.outcome == s.outcome
  {
    hide Run, IntoStops;
    RecordInto(s, e, k.before, k.enter, k.during, k.mem, k.copied);
    RecordStop(Run(s, IntoCall(e, k)), ExitTick(e, k));
    RecordsJoin(s, IntoCall(e, k), [ExitTick(e, k)]);
  }

  /** A recording that ends in a call stays within it to the end. */
  lemma RecordEnd(s: State, a: Action, f: Closing)
    requires !s.done && !s.inSyscall && !a.Invoke?
    ensures var v := Run(s, EndTicks(a, f));
            v.done && v.outcome == Some(OutcomeOf(a)) && v.inSyscall == a.last.Some?
  {
    hide OtherTicks, IntoStops, Run;
    var first, last := LastStops(a, f), Tick(f.end.now, f.end.hooks, EndStop(a));
    if a.last.None? {
      RecordOthers(s, f.before);
    } else {
      RecordInto(s, a.last.value, f.before, f.enter, f.during, f.mem, f.copied);
    }
    RecordsJoin(s, first, [last]);
    RecordLast(Run(s, first), a, f.end);
  }

  lemma RecordLast(s: State, a: Action, m: Moment)
    requires !s.done && !a.Invoke?
    ensures var v := Run(s, [Tick(m.now, m.hooks, EndStop(a))]);
            v.done && v.outcome == Some(OutcomeOf(a)) && v.inSyscall == s.inSyscall
  {
    hide EmitProcess;
    assert [Tick(m.now, m.hooks, EndStop(a))][1..] == [];
  }

  lemma {:induction false} RecordOutcome<P>(t: Program<P>, p: P, ks: seq<Served>, f: Closing, s: State)
    requires !s.done && !s.inSyscall && s.outcome.None?
    ensures Run(s, RecordTicks(t, p, ks, f)).outcome == EndOf(t, p, ks)
    ensures Run(s, RecordTicks(t, p, ks, f)).inSyscall == EndsInCall(t, p, ks)
    decreases |ks|
  {
    hide Run, CallTicks, EndTicks, OutcomeOf;
    if !t.act(p).Invoke? {
      RecordEnd(s, t.act(p), f);
    } else if ks == [] {
      NothingRecorded(s);
    } else {
      var next := t.resume(p, ks[0].ret, ks[0].mem);
      var ticks := CallTicks(t.act(p).entry, ks[0]);
      RecordCall(s, t.act(p).entry, ks[0]);
      RecordsJoin(s, ticks, RecordTicks(t, next, ks[1..], f));
      RecordOutcome(t, next, ks[1..], f, Run(s, ticks));
    }
  }

  lemma NothingRecorded(s: State)
    ensures Run(s, []) == s
  {
  }
}
