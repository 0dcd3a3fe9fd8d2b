/** The references in a replay's own trace.  The replayer writes a payload before it asks for the
    offset, so each reference gives the END of its bytes; the recorder's gives the start. */
module ReplayTrace {
  import opened CText
  import opened Sha256
  import opened Hash
  import opened HashChain
  import opened TraceEvent
  import opened TraceLog
  import opened ReplayQueue
  import opened Ptrace
  import opened Recorder
  import opened Replayer
  import opened DriftDetection
  import opened TraceShape
  import opened Pipeline

  predicate HasPayload(e: Event) { e.Syscall? && e.payload.Some? }

  /** Every queued payload reads back under its stored hash. */
  ghost predicate Hashed(queue: seq<ReplayEvent>, store: seq<byte>) {
    forall i :: 0 <= i < |queue| && queue[i].length > 0 ==>
      var d := ReadPayload(store, queue[i].offset, queue[i].length);
      d.Some? && HexDigest(d.value) == queue[i].sha256
  }

  /** A reference that gives the end of its bytes. */
  ghost predicate EndsAt(p: PayloadRef, file: seq<byte>) {
    0 < p.length <= p.offset <= |file| && HexDigest(file[p.offset - p.length..p.offset]) == p.sha256
  }

  ghost predicate Shifted(s: RState) {
    var own := OwnEvents(s.w.lines);
    && |s.w.payload| == PayloadEnd(own)
    && forall k :: 0 <= k < |own| && HasPayload(own[k]) ==>
         EndsAt(own[k].payload.value, s.w.payload) && own[k].payload.value.offset == PayloadEnd(own[..k + 1])
  }

  lemma EndsLater(p: PayloadRef, file: seq<byte>, more: seq<byte>)
    requires EndsAt(p, file)
    ensures EndsAt(p, file + more)
  {
    hide HexDigest;
    assert (file + more)[p.offset - p.length..p.offset] == file[p.offset - p.length..p.offset];
  }

  lemma EmitShifted(s: RState, w: Writer, e: Event, data: seq<byte>)
    requires Shifted(s) && w == s.w.(payload := s.w.payload + data)
    requires HasPayload(e) ==> data != [] && e.payload.value.length == |data| && e.payload.value.offset == |w.payload|
                               && e.payload.value.sha256 == HexDigest(data)
    requires !HasPayload(e) ==> data == []
    ensures var v := Emit(w.(seqNo := w.seqNo + 1), e); Shifted(s.(w := v))
  {
    hide HexDigest, PayloadEnd, ChainHash, OwnEvents, Body;
    var own := OwnEvents(s.w.lines);
    var l := Own(e, w.prevHash, ChainHash(w.prevHash, Body(e)));
    OwnEventsAppend(s.w.lines, l);
    PayloadEndAppend(own, e);
    var more := own + [e];
    forall k | 0 <= k < |more| && HasPayload(more[k])
      ensures EndsAt(more[k].payload.value, w.payload) && more[k].payload.value.offset == PayloadEnd(more[..k + 1])
    {
      if k < |own| {
        EndsLater(own[k].payload.value, s.w.payload, data);
        assert more[..k + 1] == own[..k + 1];
      } else {
        assert more[..k + 1] == more;
        assert w.payload[|s.w.payload|..|w.payload|] == data;
      }
    }
  }

  lemma ExitShifted(s: RState, now: nat, ret: int)
    requires Shifted(s) && Hashed(s.queue, s.store) && Following(s) && s.inSyscall
    ensures Shifted(OnExit(s, now, ret))
  {
    hide Shifted, HexDigest, Chained, PayloadsNonempty, Emit, SyscallName;
    match s.active
    case None =>
      assert s.w.payload + [] == s.w.payload;
      EmitShifted(s, s.w, Syscall(NextStamp(s.w, now), s.entry, ret, None), []);
      ShiftedIsOfWriter(s.(w := EmitSyscall(s.w, now, s.entry, ret, None)), OnExit(s, now, ret));
    case Some(a) =>
      assert a == s.queue[s.cursor];
      var buf := ReadPayload(s.store, a.offset, a.length).value;
      var data := if a.length > 0 then buf else [];
      assert |buf| == a.length;
      assert s.w.payload + [] == s.w.payload;
      var w := s.w.(payload := s.w.payload + data);
      var e := Syscall(NextStamp(w, now), s.entry, a.ret, SourceRef(Some(a), w.payload));
      EmitShifted(s, w, e, data);
      ShiftedIsOfWriter(s.(w := Emit(w.(seqNo := w.seqNo + 1), e)), OnExit(s, now, ret));
  }

  lemma ShiftedIsOfWriter(s: RState, v: RState)
    requires Shifted(s) && s.w == v.w
    ensures Shifted(v)
  {
    hide HexDigest, PayloadEnd, OwnEvents, EndsAt;
  }

  lemma ProcessShifted(s: RState, now: nat, name: string)
    requires Shifted(s)
    ensures Shifted(s.(w := EmitProcess(s.w, now, name, s.target)))
  {
    hide Shifted, HexDigest, Emit;
    assert s.w.payload + [] == s.w.payload;
    EmitShifted(s, s.w, Process(NextStamp(s.w, now), name, s.target), []);
  }

  lemma StepShifted(s: RState, t: Tick)
    requires Shifted(s) && Hashed(s.queue, s.store) && Following(s) && !s.done
    ensures Shifted(RStep(s, t))
  {
    hide Shifted, Following, OnExit, EmitProcess, Hashed, Seen, OwnEvents, PayloadEnd;
    var v := s.(w := AppendHooks(s.w, t.hooks));
    HooksFollow(s, t.hooks);
    HooksShifted(s, t.hooks);
    match t.stop
    case Exited(code) =>
      ProcessShifted(v, t.now, "program_exit");
      ShiftedIsOfWriter(v.(w := EmitProcess(v.w, t.now, "program_exit", v.target)), RStep(s, t));
    case Signaled(signal) =>
      ProcessShifted(v, t.now, "program_signal");
      ShiftedIsOfWriter(v.(w := EmitProcess(v.w, t.now, "program_signal", v.target)), RStep(s, t));
    case SyscallStop(regs, mem, copied) =>
      if s.inSyscall {
        ExitShifted(v, t.now, regs.rax);
      } else {
        ShiftedIsOfWriter(v, RStep(s, t));
      }
    case _ =>
      ShiftedIsOfWriter(v, RStep(s, t));
  }

  lemma HooksShifted(s: RState, hooks: seq<HookEvent>)
    requires Shifted(s) && Following(s)
    ensures Shifted(s.(w := AppendHooks(s.w, hooks)))
  {
    hide Chained, HexDigest, EndsAt, OwnEvents, PayloadEnd, PayloadsNonempty, Intact;
    HooksKeepChained(s.w, hooks);
  }

  lemma {:induction false} RunShifted(s: RState, ticks: seq<Tick>)
    requires Shifted(s) && Hashed(s.queue, s.store) && Following(s)
    ensures Shifted(RRun(s, ticks))
    decreases |ticks|
  {
    hide Shifted, Following, RStep, Hashed, Seen, ExitOf, Strayed;
    if ticks != [] {
      if s.done {
        RRunDone(s, ticks);
      } else {
        StepShifted(s, ticks[0]);
        StepFollows(s, ticks[0]);
        RunShifted(RStep(s, ticks[0]), ticks[1..]);
      }
    }
  }

  // ---------- from a recording ----------

  lemma {:induction false} SyscallIsListed(events: seq<Event>, e: Event)
    requires e in events && e.Syscall?
    ensures e in SyscallEvents(events)
  {
    var p, last := events[..|events| - 1], events[|events| - 1];
    assert events == p + [last];
    if e in p {
      SyscallIsListed(p, e);
    }
  }

  ghost predicate EventHashed(e: Event, store: seq<byte>) {
    HasPayload(e) ==>
      var d := ReadPayload(store, e.payload.value.offset, e.payload.value.length);
      d.Some? && HexDigest(d.value) == e.payload.value.sha256
  }

  lemma TellsHashed(e: Event, c: Call, store: seq<byte>)
    requires Tells(e, c, store)
    ensures EventHashed(e, store)
  {
    hide HexDigest, ReadPayload;
  }

  lemma {:induction false} QueueHashed(events: seq<Event>, store: seq<byte>)
    requires forall e :: e in events ==> EventHashed(e, store)
    ensures Hashed(QueueOfEvents(events), store)
  {
    hide HexDigest, ReadPayload, QueueEntry;
    if events != [] {
      var p, e := events[..|events| - 1], events[|events| - 1];
      assert events == p + [e];
      QueueHashed(p, store);
      EntryHashed(e, store);
    }
  }

  lemma EntryHashed(e: Event, store: seq<byte>)
    requires EventHashed(e, store)
    ensures Hashed(AsSeq(QueueEntry(e)), store)
  {
    hide HexDigest, ReadPayload, SyscallName;
  }

  lemma SoundHashed(s: State, calls: seq<Call>)
    requires Sound(s, calls)
    ensures Hashed(QueueOfEvents(OwnEvents(s.w.lines)), s.w.payload)
  {
    hide Chained, Tiled, Tells, HexDigest, ReadPayload, QueueOfEvents, OwnEvents, SyscallEvents;
    var events := OwnEvents(s.w.lines);
    forall e | e in events
      ensures EventHashed(e, s.w.payload)
    {
      if e.Syscall? {
        SyscallIsListed(events, e);
        var i :| 0 <= i < |SyscallEvents(events)| && SyscallEvents(events)[i] == e;
        TellsHashed(e, calls[i], s.w.payload);
      }
    }
    QueueHashed(events, s.w.payload);
  }

  lemma BeginShifted(runId: string, pid: int, now: nat, target: string, queue: seq<ReplayEvent>, store: seq<byte>)
    ensures Shifted(Begin(runId, pid, now, target, queue, store))
  {
    hide EmitProcess;
    var s := RState(NewWriter(runId, pid), false, NO_ENTRY, target, false, None, queue, store, 0, None);
    ProcessShifted(s, now, "program_start");
    ShiftedIsOfWriter(s.(w := EmitProcess(s.w, now, "program_start", target)),
                      Begin(runId, pid, now, target, queue, store));
  }

  /** The references of every replay of a recording, in the form they have: each gives the end of its
      bytes, in order, and the bytes before it hash to the recorded SHA-256. */
  lemma ReplayReferencesEnd(runId: string, pid: int, now: nat, target: string, ticks: seq<Tick>,
                            runId2: string, pid2: int, now2: nat, target2: string, live: seq<Tick>)
    requires Within(runId, pid, now, target, ticks)
    ensures var rec := Run(Start(runId, pid, now, target), ticks);
            Shifted(RRun(Begin(runId2, pid2, now2, target2, QueueOfText(FileText(rec.w.lines)), rec.w.payload), live))
  {
    hide Within, Run, Start, RRun, Begin, FileText, QueueOfText, QueueOfEvents, OwnEvents, Sound, Intact, Hashed;
    hide Shifted, Following, OnTrack, PayloadsNonempty;
    var rec := Run(Start(runId, pid, now, target), ticks);
    LoadOfRecording(runId, pid, now, target, ticks);
    RecordingIsFaithful(runId, pid, now, target, ticks);
    SoundIntact(rec, CallsOf(ticks, None));
    SoundHashed(rec, CallsOf(ticks, None));
    var queue := QueueOfEvents(OwnEvents(rec.w.lines));
    BeginOnTrack(runId2, pid2, now2, target2, queue, rec.w.payload);
    BeginShifted(runId2, pid2, now2, target2, queue, rec.w.payload);
    BeginStore(runId2, pid2, now2, target2, queue, rec.w.payload);
    RunShifted(Begin(runId2, pid2, now2, target2, queue, rec.w.payload), live);
  }

  lemma BeginStore(runId: string, pid: int, now: nat, target: string, queue: seq<ReplayEvent>, store: seq<byte>)
    ensures Begin(runId, pid, now, target, queue, store).store == store
  {
    hide EmitProcess;
  }

  /** So a replay's trace is no source for read_payload: it reads a payload reference of a replay at
      its stated offset exactly when as many bytes follow, and never the last one. */
  lemma ReplayReferencesMisread(s: RState, k: nat)
    requires Shifted(s) && k < |OwnEvents(s.w.lines)| && HasPayload(OwnEvents(s.w.lines)[k])
    ensures var own := OwnEvents(s.w.lines);
            var p := own[k].payload.value;
            && (ReadPayload(s.w.payload, p.offset, p.length).Some? <==>
                PayloadEnd(own) - PayloadEnd(own[..k + 1]) >= p.length)
            && ((forall j :: k < j < |own| ==> !HasPayload(own[j])) ==>
                 ReadPayload(s.w.payload, p.offset, p.length).None?)
  {
    hide HexDigest, PayloadEnd, OwnEvents;
    var own := OwnEvents(s.w.lines);
    if forall j :: k < j < |own| ==> !HasPayload(own[j]) {
      NothingAfter(own, k + 1);
    }
  }

  lemma {:induction false} NothingAfter(events: seq<Event>, k: nat)
    requires k <= |events| && forall j :: k <= j < |events| ==> !HasPayload(events[j])
    ensures PayloadEnd(events[..k]) == PayloadEnd(events)
  {
    if k == |events| {
      assert events[..k] == events;
    } else {
      var p := events[..|events| - 1];
      assert p[..k] == events[..k];
      NothingAfter(p, k);
    }
  }
}
