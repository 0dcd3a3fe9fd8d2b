/** The loader's filter and the verifier's filter compared, and what the verifier says about a replay. */
module DriftDetection {
  import opened CText
  import opened Sha256
  import opened TraceEvent
  import opened TraceLog
  import opened ReplayQueue
  import opened Ptrace
  import opened Recorder
  import opened Replayer
  import opened Verifier
  import opened EventDecode
  import opened TraceText
  import opened TraceReader
  import opened TraceShape

  // ---------- two filters agree ----------

  /** What the verifier compares of a queued event. */
  function Expected(q: ReplayEvent): Comparable {
    Comparable(Some("SYSCALL"), Some(q.name), Some(q.no), Some(q.ret), Some(ErrnoOf(q.ret)),
               if q.length > 0 then Some(q.sha256) else None)
  }

  function ExpectedAll(queue: seq<ReplayEvent>): (r: seq<Comparable>)
    ensures |r| == |queue| && forall i :: 0 <= i < |r| ==> r[i] == Expected(queue[i])
  {
    seq(|queue|, i requires 0 <= i < |queue| => Expected(queue[i]))
  }

  ghost predicate PayloadsNonempty(events: seq<Event>) {
    forall i :: 0 <= i < |events| && events[i].Syscall? && events[i].payload.Some? ==>
      events[i].payload.value.length > 0
  }

  lemma NameTells(no: int)
    ensures SyscallName(no) in {"getrandom", "clock_gettime", "gettimeofday"} <==>
            no == SYS_GETRANDOM || no == SYS_CLOCK_GETTIME || no == SYS_GETTIMEOFDAY
    ensures SyscallName(no) == "read" <==> no == SYS_READ
  {
    var g := "sys_" + SignedDecimal(no);
    assert g[0] == 's' && g[1] == 'y';
  }

  /** One event: the verifier checks it exactly when the loader queues it, and compares the same things. */
  lemma FiltersAgreeOnEvent(e: Event)
    requires e.Syscall? && e.payload.Some? ==> e.payload.value.length > 0
    ensures IsChecked(ViewEvent(e)) <==> QueueEntry(e).Some?
    ensures QueueEntry(e).Some? ==> ComparableEvent(ViewEvent(e)) == Expected(QueueEntry(e).value)
  {
    hide SyscallName, ErrnoOf;
    if e.Syscall? {
      NameTells(e.entry.no);
      assert "SYSCALL" != "DRIFT";
    } else {
      assert "PROCESS"[0] == 'P';
    }
  }

  lemma HookUnchecked(h: HookEvent)
    ensures !IsChecked(ViewHook(h))
  {
    assert "SYNC"[1] == 'Y' && "SYSCALL"[2] == 'S' && "SYNC"[2] == 'N' && "DRIFT"[0] == 'D';
  }

  lemma CheckedConcat(a: seq<JsonEvent>, e: JsonEvent)
    ensures Checked(a + [e]) == Checked(a) + if IsChecked(e) then [e] else []
  {
    assert (a + [e])[..|a|] == a;
  }

  /** The verifier's filter on what the lines say, and the loader's on the events themselves. */
  lemma {:induction false} LinesAgree(lines: seq<Line>)
    requires PayloadsNonempty(OwnEvents(lines))
    ensures Comparables(Checked(View(lines))) == ExpectedAll(QueueOfEvents(OwnEvents(lines)))
  {
    hide Checked, View, OwnEvents, QueueOfEvents, PayloadsNonempty, Expected;
    if lines == [] {
      NothingToCompare();
    } else {
      var p, l := lines[..|lines| - 1], lines[|lines| - 1];
      assert lines == p + [l];
      OwnEventsAppend(p, l);
      if l.Own? {
        PrefixNonempty(OwnEvents(p), l.event);
        LinesAgree(p);
        AgreeOnOwn(p, l);
      } else {
        LinesAgree(p);
        AgreeOnHook(p, l);
      }
    }
  }

  lemma AgreeOnOwn(p: seq<Line>, l: Line)
    requires Comparables(Checked(View(p))) == ExpectedAll(QueueOfEvents(OwnEvents(p)))
    requires l.Own? && (l.event.Syscall? && l.event.payload.Some? ==> l.event.payload.value.length > 0)
    ensures Comparables(Checked(View(p + [l]))) == ExpectedAll(QueueOfEvents(OwnEvents(p) + [l.event]))
  {
    hide Checked, View, OwnEvents, QueueOfEvents, ViewEvent, QueueEntry, ComparableEvent, Expected, IsChecked;
    ViewAppend(p, l);
    OwnView(l);
    CheckedConcat(View(p), ViewEvent(l.event));
    QueueOfEventsAppend(OwnEvents(p), l.event);
    FiltersAgreeOnEvent(l.event);
  }

  lemma AgreeOnHook(p: seq<Line>, l: Line)
    requires l.Hook?
    ensures Checked(View(p + [l])) == Checked(View(p))
  {
    hide Checked, View, ViewHook, HookLine, IsChecked;
    ViewAppend(p, l);
    HookUnchecked(l.hook);
    CheckedConcat(View(p), ViewHook(l.hook));
    assert View(p) + [] == View(p);
  }

  lemma OwnView(l: Line)
    requires l.Own?
    ensures ViewLine(l) == [ViewEvent(l.event)]
  {
  }

  /** Two independent readers of one text agree: of the file of every run under legible names, hook lines
      included, load_events and the verifier's filter keep in order exactly the events that
      load_replay_events queues. */
  lemma FiltersAgree(lines: seq<Line>, runId: string, target: string, ahead: nat)
    requires Shaped(lines, runId, target, LegibleHook) && LegibleNames(runId, target)
    requires PayloadsNonempty(OwnEvents(lines))
    ensures LoadEvents(FileText(lines), ahead).Some?
    ensures Comparables(Checked(LoadEvents(FileText(lines), ahead).value)) == ExpectedAll(QueueOfText(FileText(lines)))
  {
    hide Shaped, LegibleNames, FileText, QueueOfText, Checked, View, OwnEvents, QueueOfEvents, PayloadsNonempty;
    hide Expected;
    hide LoadEvents, LoadQuietly;
    ShapedLoads(lines, runId, target, ahead);
    ShapedQueue(lines, runId, target);
    LinesAgree(lines);
  }

  lemma NothingToCompare()
    ensures Checked(View([])) == [] && QueueOfEvents(OwnEvents([])) == []
  {
  }

  lemma PrefixNonempty(events: seq<Event>, e: Event)
    requires PayloadsNonempty(events + [e])
    ensures PayloadsNonempty(events)
    ensures e.Syscall? && e.payload.Some? ==> e.payload.value.length > 0
  {
    assert forall i :: 0 <= i < |events| ==> (events + [e])[i] == events[i];
    assert (events + [e])[|events|] == e;
  }

  // ---------- what a live run did ----------

  /** A completed live call: its number, whether the queue served it, and where the cursor was. */
  datatype LiveCall = LiveCall(no: int, served: bool, cursor: nat)

  function ExitOf(s: RState, t: Tick): Option<LiveCall> {
    if !s.done && t.stop.SyscallStop? && s.inSyscall then Some(LiveCall(s.entry.no, s.active.Some?, s.cursor)) else None
  }

  function Lives(s: RState, ticks: seq<Tick>): seq<LiveCall>
    decreases |ticks|
  {
    if ticks == [] then [] else AsSeq(ExitOf(s, ticks[0])) + Lives(RStep(s, ticks[0]), ticks[1..])
  }

  /** A live clock or random read the queue did not serve. */
  predicate Strayed(c: LiveCall) {
    !c.served && (c.no == SYS_GETRANDOM || c.no == SYS_CLOCK_GETTIME || c.no == SYS_GETTIMEOFDAY)
  }

  function FirstStray(lives: seq<LiveCall>): Option<LiveCall> {
    if lives == [] then None else if Strayed(lives[0]) then Some(lives[0]) else FirstStray(lives[1..])
  }

  /** The queue came from a trace whose payload file is still there. */
  ghost predicate Intact(queue: seq<ReplayEvent>, store: seq<byte>) {
    forall i :: 0 <= i < |queue| ==>
      && ReadPayload(store, queue[i].offset, queue[i].length).Some?
      && queue[i].name == SyscallName(queue[i].no) && IsReplayable(queue[i].no) && ShouldLoad(queue[i])
  }

  function Seen(s: RState): seq<Comparable> { ExpectedAll(QueueOfEvents(OwnEvents(s.w.lines))) }

  ghost predicate Following(s: RState) {
    && Chained(s.w) && PayloadsNonempty(OwnEvents(s.w.lines))
    && s.cursor <= |s.queue| && Intact(s.queue, s.store)
    && (s.inSyscall ==> s.active == Candidate(s.queue, s.cursor, s.entry.no))
  }

  lemma SeenAfterEmit(w: Writer, e: Event)
    requires Chained(w) && PayloadsNonempty(OwnEvents(w.lines))
    requires e.stamp.seqNo == w.seqNo + 1 && e.stamp.runId == w.runId
    requires e.Syscall? && e.payload.Some? ==> e.payload.value.length > 0
    ensures var v := Emit(w.(seqNo := w.seqNo + 1), e);
            && Chained(v) && PayloadsNonempty(OwnEvents(v.lines))
            && ExpectedAll(QueueOfEvents(OwnEvents(v.lines)))
               == ExpectedAll(QueueOfEvents(OwnEvents(w.lines))) + ExpectedAll(AsSeq(QueueEntry(e)))
  {
    hide Chained, OwnEvents, QueueOfEvents, QueueEntry, Emit, Expected;
    EmitKeepsChained(w, e);
    QueueOfEventsAppend(OwnEvents(w.lines), e);
  }

  /** The event of a served call compares equal to the queued event that served it. */
  lemma ServedLooksQueued(a: ReplayEvent, stamp: Stamp, entry: Entry, payload: seq<byte>)
    requires a.no == entry.no && a.name == SyscallName(a.no) && IsReplayable(a.no) && ShouldLoad(a)
    ensures var e := Syscall(stamp, entry, a.ret, SourceRef(Some(a), payload));
            QueueEntry(e).Some? && Expected(QueueEntry(e).value) == Expected(a)
  {
    hide SyscallName, ErrnoOf;
  }

  /** An unserved call shows up in the comparison exactly when it is a clock or random read. */
  lemma UnservedLooks(stamp: Stamp, entry: Entry, ret: int)
    ensures var e := Syscall(stamp, entry, ret, None);
            && (QueueEntry(e).Some? <==> IsReplayable(entry.no) && entry.no != SYS_READ)
            && (QueueEntry(e).Some? ==> Expected(QueueEntry(e).value).syscallNo == Some(entry.no))
  {
    hide SyscallName, ErrnoOf;
  }

  lemma ExitFollows(s: RState, now: nat, ret: int)
    requires Following(s) && s.inSyscall
    ensures var v := OnExit(s, now, ret);
            && Following(v) && v.queue == s.queue && v.store == s.store && v.done == s.done
            && (s.active.Some? ==> v.cursor == s.cursor + 1 && Seen(v) == Seen(s) + [Expected(s.queue[s.cursor])])
            && (s.active.None? ==> v.cursor == s.cursor)
            && (s.active.None? && !Strayed(LiveCall(s.entry.no, false, s.cursor)) ==> Seen(v) == Seen(s))
            && (Strayed(LiveCall(s.entry.no, s.active.Some?, s.cursor)) ==>
                 && |Seen(v)| == |Seen(s)| + 1 && Seen(v)[..|Seen(s)|] == Seen(s)
                 && Seen(v)[|Seen(s)|].syscallNo == Some(s.entry.no)
                 && (s.cursor < |s.queue| ==> s.queue[s.cursor].no != s.entry.no))
  {
    hide Chained, OwnEvents, QueueOfEvents, QueueEntry, Emit, Expected, ReadPayload, PayloadsNonempty, SyscallName;
    match s.active
    case None =>
      var e := Syscall(NextStamp(s.w, now), s.entry, ret, None);
      SeenAfterEmit(s.w, e);
      UnservedLooks(NextStamp(s.w, now), s.entry, ret);
    case Some(a) =>
      assert a == s.queue[s.cursor];
      var buf := ReadPayload(s.store, a.offset, a.length).value;
      var w := if a.length > 0 then s.w.(payload := s.w.payload + buf) else s.w;
      ChainedIgnoresPayload(s.w, buf);
      var e := Syscall(NextStamp(w, now), s.entry, a.ret, SourceRef(Some(a), w.payload));
      SeenAfterEmit(w, e);
      ServedLooksQueued(a, NextStamp(w, now), s.entry, w.payload);
      assert ExpectedAll(AsSeq(QueueEntry(e))) == [Expected(a)];
  }

  lemma ProcessFollows(s: RState, now: nat, name: string)
    requires Following(s)
    ensures var v := s.(w := EmitProcess(s.w, now, name, s.target)); Following(v) && Seen(v) == Seen(s)
  {
    hide Chained, OwnEvents, QueueOfEvents, Emit, Expected, PayloadsNonempty, Intact;
    var e := Process(NextStamp(s.w, now), name, s.target);
    SeenAfterEmit(s.w, e);
    assert Seen(s) + ExpectedAll([]) == Seen(s);
  }

  lemma HooksFollow(s: RState, hooks: seq<HookEvent>)
    requires Following(s)
    ensures var v := s.(w := AppendHooks(s.w, hooks)); Following(v) && Seen(v) == Seen(s)
  {
    hide Chained, OwnEvents, Intact;
    HooksKeepChained(s.w, hooks);
  }

  lemma StepFollows(s: RState, t: Tick)
    requires Following(s) && !s.done
    ensures var v, c := RStep(s, t), ExitOf(s, t);
            && Following(v) && v.queue == s.queue && v.store == s.store
            && (c.None? ==> v.cursor == s.cursor && Seen(v) == Seen(s))
            && (c.Some? && c.value.served ==>
                 s.cursor < |s.queue| && v.cursor == s.cursor + 1 && Seen(v) == Seen(s) + [Expected(s.queue[s.cursor])])
            && (c.Some? && !c.value.served ==> v.cursor == s.cursor)
            && (c.Some? && !c.value.served && !Strayed(c.value) ==> Seen(v) == Seen(s))
            && (c.Some? && Strayed(c.value) ==>
                 && |Seen(v)| == |Seen(s)| + 1 && Seen(v)[..|Seen(s)|] == Seen(s)
                 && Seen(v)[|Seen(s)|].syscallNo == Some(c.value.no)
                 && (s.cursor < |s.queue| ==> s.queue[s.cursor].no != c.value.no))
  {
    hide Chained, OwnEvents, QueueOfEvents, Expected, PayloadsNonempty, Intact, OnExit, EmitProcess, AppendHooks;
    hide Strayed, ExpectedAll;
    HooksFollow(s, t.hooks);
    var v := s.(w := AppendHooks(s.w, t.hooks));
    match t.stop
    case Exited(code) =>
      ProcessFollows(v, t.now, "program_exit");
    case Signaled(signal) =>
      ProcessFollows(v, t.now, "program_signal");
    case SyscallStop(regs, mem, copied) =>
      if s.inSyscall {
        ExitFollows(v, t.now, regs.rax);
      }
    case _ =>
  }

  /** Every live call so far was served: the replay's compared events are the queue's first ones. */
  ghost predicate OnTrack(s: RState) { s.cursor <= |s.queue| && Seen(s) == ExpectedAll(s.queue)[..s.cursor] }

  /** The replay's compared events first leave the queue's at place c. */
  ghost predicate OffTrack(s: RState, c: nat) {
    var q, seen := ExpectedAll(s.queue), Seen(s);
    && c <= |q| && c < |seen| && seen[..c] == q[..c] && (c < |q| ==> seen[c] != q[c])
  }

  lemma OffTrackStays(s: RState, v: RState, c: nat)
    requires OffTrack(s, c) && v.queue == s.queue && |Seen(v)| >= |Seen(s)| && Seen(v)[..|Seen(s)|] == Seen(s)
    ensures OffTrack(v, c)
  {
    hide Seen, ExpectedAll;
    assert Seen(v)[..c] == Seen(v)[..|Seen(s)|][..c];
    assert Seen(v)[c] == Seen(v)[..|Seen(s)|][c];
  }

  lemma {:induction false} RunOffTrack(s: RState, ticks: seq<Tick>, c: nat)
    requires Following(s) && OffTrack(s, c)
    ensures Following(RRun(s, ticks)) && OffTrack(RRun(s, ticks), c) && RRun(s, ticks).queue == s.queue
    decreases |ticks|
  {
    hide Following, OffTrack, RStep, Strayed, ExitOf, Seen, ExpectedAll, Expected;
    if ticks != [] {
      if s.done {
        RRunDone(s, ticks);
      } else {
        StepFollows(s, ticks[0]);
        var v := RStep(s, ticks[0]);
        assert |Seen(v)| >= |Seen(s)| && Seen(v)[..|Seen(s)|] == Seen(s);
        OffTrackStays(s, v, c);
        RunOffTrack(v, ticks[1..], c);
      }
    }
  }

  lemma LivesDone(s: RState, ticks: seq<Tick>)
    requires s.done
    ensures Lives(s, ticks) == []
    decreases |ticks|
  {
    if ticks != [] {
      assert RStep(s, ticks[0]) == s;
      LivesDone(s, ticks[1..]);
    }
  }

  /** A run stays on track until its first stray call, and is off track at that call's cursor ever after. */
  lemma {:induction false} RunOnTrack(s: RState, ticks: seq<Tick>)
    requires Following(s) && OnTrack(s)
    ensures var v, stray := RRun(s, ticks), FirstStray(Lives(s, ticks));
            && Following(v) && v.queue == s.queue
            && (stray.None? ==> OnTrack(v))
            && (stray.Some? ==> OffTrack(v, stray.value.cursor))
    decreases |ticks|
  {
    hide Following, RStep, Strayed, Seen, ExpectedAll, Expected;
    if ticks == [] {
    } else if s.done {
      RRunDone(s, ticks);
      LivesDone(s, ticks);
    } else {
      var t, rest := ticks[0], ticks[1..];
      var v, c := RStep(s, t), ExitOf(s, t);
      StepFollows(s, t);
      FirstStrayCons(c, Lives(v, rest));
      if c.Some? && Strayed(c.value) {
        StrayLeavesTrack(s, v);
        RunOffTrack(v, rest, s.cursor);
      } else {
        StaysOnTrack(s, v);
        RunOnTrack(v, rest);
      }
    }
  }

  lemma FirstStrayCons(c: Option<LiveCall>, rest: seq<LiveCall>)
    ensures FirstStray(AsSeq(c) + rest) == if c.Some? && Strayed(c.value) then c else FirstStray(rest)
  {
    hide Strayed;
    match c
    case None =>
      assert [] + rest == rest;
    case Some(l) =>
      assert ([l] + rest)[1..] == rest;
  }

  lemma StrayLeavesTrack(s: RState, v: RState)
    requires Following(s) && OnTrack(s) && v.queue == s.queue
    requires |Seen(v)| == |Seen(s)| + 1 && Seen(v)[..|Seen(s)|] == Seen(s)
    requires s.cursor < |s.queue| ==> Seen(v)[|Seen(s)|].syscallNo != Some(s.queue[s.cursor].no)
    ensures OffTrack(v, s.cursor)
  {
    hide Seen, Chained, OwnEvents, PayloadsNonempty, Intact, SyscallName, ErrnoOf;
    assert |Seen(s)| == s.cursor;
  }

  lemma StaysOnTrack(s: RState, v: RState)
    requires Following(s) && OnTrack(s) && v.queue == s.queue
    requires (v.cursor == s.cursor && Seen(v) == Seen(s))
          || (s.cursor < |s.queue| && v.cursor == s.cursor + 1 && Seen(v) == Seen(s) + [Expected(s.queue[s.cursor])])
    ensures OnTrack(v)
  {
    hide Seen, Chained, OwnEvents, PayloadsNonempty, Intact, Expected;
    if v.cursor == s.cursor + 1 {
      var q := ExpectedAll(s.queue);
      assert q[..s.cursor] + [q[s.cursor]] == q[..v.cursor];
    }
  }
}
