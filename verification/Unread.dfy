/** Traces the verifier cannot read: run_id and target go into the lines unescaped, and load_events stops
    at the first line that is no JSON. */
module Unread {
  import opened CText
  import opened Sha256
  import opened Hash
  import opened HashChain
  import opened TraceEvent
  import opened TraceLog
  import opened EventJson
  import opened JsonText
  import opened ReplayQueue
  import opened Ptrace
  import opened Recorder
  import opened Replayer
  import opened Verifier
  import opened TraceReader
  import opened EventDecode
  import opened TraceText
  import opened TraceBounds
  import opened TraceShape
  import opened Illegible
  import opened DriftDetection
  import opened Pipeline

  // ---------- where reading stops ----------

  ghost predicate Spoiled(l: Line) { forall rest :: ReadLine(NextLine(PrintedLine(l) + rest).0) == Undecodable }

  lemma SpoiledStops(l: Line, rest: string, lineNo: nat)
    requires Spoiled(l) && l.Own?
    ensures ReadTrace(PrintedLine(l) + rest, lineNo) == Some(Trace([], Some(lineNo)))
  {
    hide ReadLine, NextLine;
    NotEmpty(l);
    hide PrintedLine;
  }

  /** Everything before the first spoiled line is read, and nothing after it. */
  lemma {:induction false} ReadStops(lines: seq<Line>, k: nat, lineNo: nat)
    requires k < |lines| && lines[k].Own? && Spoiled(lines[k]) && forall i :: 0 <= i < k ==> Readable(lines[i])
    ensures ReadTrace(FileText(lines), lineNo) == Some(Trace(View(lines[..k]), Some(lineNo + |View(lines[..k])|)))
    decreases k
  {
    hide Readable, PrintedLine, ViewEvent, ViewHook, View, HookLine, Spoiled, ReadTrace;
    if k == 0 {
      NothingViewed();
      SpoiledStops(lines[0], FileText(lines[1..]), lineNo);
    } else {
      var rest := FileText(lines[1..]);
      assert Readable(lines[0]);
      assert lines[..k] == [lines[0]] + lines[1..][..k - 1];
      ViewConcat([lines[0]], lines[1..][..k - 1]);
      ViewOne(lines[0]);
      if lines[0].Hook? && HookLine(lines[0].hook).None? {
        DroppedLine(lines[0]);
        assert PrintedLine(lines[0]) + rest == rest;
        ReadStops(lines[1..], k - 1, lineNo);
        assert [] + View(lines[1..][..k - 1]) == View(lines[1..][..k - 1]);
      } else {
        OneLineReads(lines[0], rest, lineNo);
        ReadStops(lines[1..], k - 1, lineNo + 1);
      }
    }
  }

  // ---------- exactly when a whole trace is read ----------

  /** The line of an event with quote-free names decodes. */
  ghost predicate Decodes(e: Event) { Inside(e.stamp.runId) && (e.Process? ==> Inside(e.target) && Fits(e)) }

  ghost predicate QuoteFree(runId: string, target: string) {
    |runId| <= MAX_RUN_ID && Lacks(runId, '"') && Lacks(target, '"')
  }

  lemma HeadFits(e: Event)
    requires Typed(e) && e.Process? && |e.stamp.runId| <= MAX_RUN_ID
    ensures |ProcessHead(e.stamp, e.name)| < 4096
  {
    hide ProcessHead, Digits, TracerName;
    ProcessHeadLength(e.stamp, e.name);
    DigitsBound(e.stamp);
    NameLength(e.name);
  }

  lemma UndecodedSpoils(l: Line, runId: string, target: string, kind: HookEvent -> bool)
    requires LineShaped(l, runId, target, kind) && QuoteFree(runId, target) && l.Own? && !Decodes(l.event)
    ensures Spoiled(l)
  {
    hide ReadLine, NextLine, PrintedLine, Fits, ProcessHead, Plain, Typed, IsHex, Digits, Material, Body, Inside;
    var e := l.event;
    if e.Process? {
      HeadFits(e);
      ProcessTyped(e);
      TracerNameText(e.name);
    } else {
      NothingTruncated(e);
    }
    forall rest
      ensures ReadLine(NextLine(PrintedLine(l) + rest).0) == Undecodable
    {
      OwnLineSpoils(e, l.prevHash, l.eventHash, rest);
    }
  }

  lemma DecodedReadable(l: Line, runId: string, target: string)
    requires LineShaped(l, runId, target, LegibleHook) && |runId| <= MAX_RUN_ID && Utf8(runId) && Utf8(target)
    requires l.Own? ==> Decodes(l.event)
    ensures Readable(l)
  {
    hide Inside, Utf8, Typed, HookLegible, HookUtf8, Fits, EventLegible, EventUtf8, IsHex, Digits, Material, Body;
    if l.Own? {
      NothingTruncated(l.event);
      TypedLegible(l.event);
    }
  }

  /** The first own line that does not decode. */
  lemma {:induction false} FirstUndecoded(lines: seq<Line>) returns (k: nat)
    ensures k <= |lines| && forall i :: 0 <= i < k && lines[i].Own? ==> Decodes(lines[i].event)
    ensures k < |lines| ==> lines[k].Own? && !Decodes(lines[k].event)
  {
    hide Decodes;
    if lines == [] {
      k := 0;
    } else {
      var n := |lines| - 1;
      k := FirstUndecoded(lines[..n]);
      if k == n && lines[n].Own? && Decodes(lines[n].event) {
        k := n + 1;
      } else if k == n && lines[n].Hook? {
        k := n + 1;
      }
    }
  }

  /** Under quote-free UTF-8 names, the verifier reads the whole of a trace exactly when run_id and target can
      stand between quotes and no process body is cut; otherwise it reads up to the first line for which
      that fails. */
  lemma TraceReadsExactly(lines: seq<Line>, runId: string, target: string)
    requires Shaped(lines, runId, target, LegibleHook) && QuoteFree(runId, target) && Utf8(runId) && Utf8(target)
    ensures ReadTrace(FileText(lines), 1) == Some(Trace(View(lines), None)) <==>
            forall i :: 0 <= i < |lines| && lines[i].Own? ==> Decodes(lines[i].event)
    ensures forall k :: 0 <= k < |lines| && lines[k].Own? && !Decodes(lines[k].event)
              && (forall i :: 0 <= i < k && lines[i].Own? ==> Decodes(lines[i].event))
              ==> ReadTrace(FileText(lines), 1) == Some(Trace(View(lines[..k]), Some(1 + |View(lines[..k])|)))
  {
    hide Decodes, FileText, View, ReadTrace, LineShaped, Utf8, QuoteFree, Readable, Spoiled;
    forall k | 0 <= k < |lines| && lines[k].Own? && !Decodes(lines[k].event)
               && (forall i :: 0 <= i < k && lines[i].Own? ==> Decodes(lines[i].event))
      ensures ReadTrace(FileText(lines), 1) == Some(Trace(View(lines[..k]), Some(1 + |View(lines[..k])|)))
    {
      ReadsUpTo(lines, runId, target, k);
    }
    var k := FirstUndecoded(lines);
    if k == |lines| {
      forall i | 0 <= i < |lines|
        ensures Readable(lines[i])
      {
        QuoteFreeShort(runId, target);
        DecodedReadable(lines[i], runId, target);
      }
      ReadOfFile(lines, 1);
    }
  }

  lemma QuoteFreeShort(runId: string, target: string)
    requires QuoteFree(runId, target)
    ensures |runId| <= MAX_RUN_ID
  {
  }

  lemma ReadsUpTo(lines: seq<Line>, runId: string, target: string, k: nat)
    requires Shaped(lines, runId, target, LegibleHook) && QuoteFree(runId, target) && Utf8(runId) && Utf8(target)
    requires k < |lines| && lines[k].Own? && !Decodes(lines[k].event)
    requires forall i :: 0 <= i < k && lines[i].Own? ==> Decodes(lines[i].event)
    ensures ReadTrace(FileText(lines), 1) == Some(Trace(View(lines[..k]), Some(1 + |View(lines[..k])|)))
  {
    hide Decodes, FileText, View, ReadTrace, LineShaped, Utf8, QuoteFree, Readable, Spoiled;
    QuoteFreeShort(runId, target);
    UndecodedSpoils(lines[k], runId, target, LegibleHook);
    forall i | 0 <= i < k
      ensures Readable(lines[i])
    {
      DecodedReadable(lines[i], runId, target);
    }
    ReadStops(lines, k, 1);
  }

  // ---------- names that make the first line unreadable ----------

  function FirstEvent(runId: string, pid: int, now: nat, target: string): Event {
    Process(Stamp(runId, 1, now, pid), "program_start", target)
  }

  /** A quote breaks the target, and the body has room for it and the char behind it. */
  predicate TargetBreaks(runId: string, pid: int, now: nat, target: string, at: nat) {
    QuoteBreaks(target, at) && |ProcessHead(Stamp(runId, 1, now, pid), "program_start")| + at + 2 < 4096
  }

  /** The program_start line does not decode: a quote breaks the run_id or, printed with what follows it, the
      target; or quote-free names cannot stand between quotes; or the body is cut. */
  ghost predicate Unreadable(runId: string, pid: int, now: nat, target: string) {
    || (exists at: nat :: QuoteBreaks(runId, at))
    || (Inside(runId) && exists at: nat :: TargetBreaks(runId, pid, now, target, at))
    || (Lacks(runId, '"') && Lacks(target, '"') && !Decodes(FirstEvent(runId, pid, now, target)))
  }

  /** A backslash that starts no escape, and a quote with a letter behind it, in run_id or target. */
  lemma BrokenNames(pid: int, now: nat, target: string)
    requires Lacks(target, '"') && IsInt(pid) && IsULong(now)
    ensures Unreadable("a\\q", pid, now, target) && Unreadable("a\"b", pid, now, target)
    ensures Unreadable("a", pid, now, "a\"b")
  {
    ShortHead(pid, now);
    assert "a\\q"[1..] == "\\q" && "\\q"[1..] == "q";
    assert ReadEscape("q") == None;
    assert !Inside("\\q") && !Inside("a\\q");
    assert "a\"b"[..1] == "a" && "a"[1..] == "" && Inside("a");
    assert QuoteBreaks("a\"b", 1);
    assert TargetBreaks("a", pid, now, "a\"b", 1);
  }

  lemma ShortHead(pid: int, now: nat)
    requires IsInt(pid) && IsULong(now)
    ensures |ProcessHead(Stamp("a", 1, now, pid), "program_start")| + 3 < 4096
  {
    hide ProcessHead, Digits;
    ProcessHeadLength(Stamp("a", 1, now, pid), "program_start");
    DigitsBound(Stamp("a", 1, now, pid));
  }

  lemma FirstLineSpoils(runId: string, pid: int, now: nat, target: string, prevHash: string, eventHash: string)
    requires Unreadable(runId, pid, now, target) && |runId| <= MAX_RUN_ID && IsInt(pid) && IsULong(now)
    requires IsHex(prevHash) && IsHex(eventHash)
    ensures Spoiled(Own(FirstEvent(runId, pid, now, target), prevHash, eventHash))
  {
    hide ReadLine, NextLine, PrintedLine, Fits, ProcessHead, IsHex, Inside, TracerName, QuoteBreaks;
    var e := FirstEvent(runId, pid, now, target);
    var l := Own(e, prevHash, eventHash);
    NamesAreTracers();
    HeadFits(e);
    if at: nat :| QuoteBreaks(runId, at) {
      forall rest
        ensures ReadLine(NextLine(PrintedLine(l) + rest).0) == Undecodable
      {
        QuotedFirstLine(e, at, prevHash, eventHash, rest);
      }
    } else if Inside(runId) && exists at: nat :: TargetBreaks(runId, pid, now, target, at) {
      var at: nat :| TargetBreaks(runId, pid, now, target, at);
      TracerNameText(e.name);
      forall rest
        ensures ReadLine(NextLine(PrintedLine(l) + rest).0) == Undecodable
      {
        QuotedTargetSpoilsLine(e, at, prevHash, eventHash, rest);
      }
    } else {
      UndecodedSpoils(l, runId, target, AnyHook);
    }
  }

  lemma QuotedFirstLine(e: Event, at: nat, prevHash: string, eventHash: string, rest: string)
    requires e.Process? && |ProcessHead(e.stamp, e.name)| < 4096 && QuoteBreaks(e.stamp.runId, at)
    ensures ReadLine(NextLine(PrintedLine(Own(e, prevHash, eventHash)) + rest).0) == Undecodable
  {
    var more := OwnOpens(e, prevHash, eventHash);
    hide *;
    QuotedRunIdSpoilsLine(e.stamp.runId, at, more, rest);
  }

  /** The file of a run whose first line is spoiled reads as that fact alone. */
  lemma UnreadFile(lines: seq<Line>, ahead: nat)
    requires lines != [] && lines[0].Own? && Spoiled(lines[0])
    ensures LoadEvents(FileText(lines), ahead)
         == if Decodable(FileText(lines), ahead) then Some([TraceError(1)]) else None
    ensures LoadQuietly(FileText(lines), ahead) == if Decodable(FileText(lines), ahead) then Some([]) else None
  {
    hide Spoiled, FileText, ReadTrace, Decodable, View;
    ReadStops(lines, 0, 1);
    assert lines[..0] == [];
    NothingViewed();
    assert View(lines[..0]) + [TraceError(1)] == [TraceError(1)];
  }

  lemma StandInUnchecked()
    ensures Checked([TraceError(1)]) == []
  {
    assert "TRACE_ERROR"[0] == 'T' && "SYSCALL"[0] == 'S' && "DRIFT"[0] == 'D';
    assert [TraceError(1)][..0] == [];
  }

  // ---------- the first line of every run ----------

  lemma StepGrows(s: State, t: Tick)
    ensures s.w.lines <= Step(s, t).w.lines
  {
    hide ChainHash, CallData, HexDigest, Body;
  }

  lemma {:induction false} RunGrows(s: State, ticks: seq<Tick>)
    ensures s.w.lines <= Run(s, ticks).w.lines
    decreases |ticks|
  {
    hide Step;
    if ticks != [] {
      StepGrows(s, ticks[0]);
      RunGrows(Step(s, ticks[0]), ticks[1..]);
    }
  }

  lemma RStepGrows(s: RState, t: Tick)
    ensures s.w.lines <= RStep(s, t).w.lines
  {
    hide ChainHash, Body;
  }

  lemma {:induction false} RRunGrows(s: RState, ticks: seq<Tick>)
    ensures s.w.lines <= RRun(s, ticks).w.lines
    decreases |ticks|
  {
    hide RStep;
    if ticks != [] {
      RStepGrows(s, ticks[0]);
      RRunGrows(RStep(s, ticks[0]), ticks[1..]);
    }
  }

  lemma FirstWritten(runId: string, pid: int, now: nat, target: string)
    ensures var lines := EmitProcess(NewWriter(runId, pid), now, "program_start", target).lines;
            && |lines| == 1 && lines[0].Own? && lines[0].event == FirstEvent(runId, pid, now, target)
            && IsHex(lines[0].prevHash) && IsHex(lines[0].eventHash)
  {
    hide Body;
  }

  lemma RecordingUnread(runId: string, pid: int, now: nat, target: string, ticks: seq<Tick>, ahead: nat)
    requires Unreadable(runId, pid, now, target) && |runId| <= MAX_RUN_ID && IsInt(pid) && IsULong(now)
    ensures var text := FileText(Run(Start(runId, pid, now, target), ticks).w.lines);
            && LoadEvents(text, ahead) == (if Decodable(text, ahead) then Some([TraceError(1)]) else None)
            && LoadQuietly(text, ahead) == if Decodable(text, ahead) then Some([]) else None
  {
    hide Unreadable, Run, EmitProcess, Spoiled, FileText, LoadEvents, LoadQuietly, Decodable, IsHex;
    var s := Start(runId, pid, now, target);
    FirstWritten(runId, pid, now, target);
    RunGrows(s, ticks);
    FirstLineSpoils(runId, pid, now, target, s.w.lines[0].prevHash, s.w.lines[0].eventHash);
    UnreadFile(Run(s, ticks).w.lines, ahead);
  }

  lemma ReplayUnread(runId: string, pid: int, now: nat, target: string, queue: seq<ReplayEvent>, store: seq<byte>,
                     ticks: seq<Tick>, ahead: nat)
    requires Unreadable(runId, pid, now, target) && |runId| <= MAX_RUN_ID && IsInt(pid) && IsULong(now)
    ensures var text := FileText(RRun(Begin(runId, pid, now, target, queue, store), ticks).w.lines);
            && LoadEvents(text, ahead) == (if Decodable(text, ahead) then Some([TraceError(1)]) else None)
            && LoadQuietly(text, ahead) == if Decodable(text, ahead) then Some([]) else None
  {
    hide Unreadable, RRun, EmitProcess, Spoiled, FileText, LoadEvents, LoadQuietly, Decodable, IsHex;
    var s := Begin(runId, pid, now, target, queue, store);
    FirstWritten(runId, pid, now, target);
    RRunGrows(s, ticks);
    FirstLineSpoils(runId, pid, now, target, s.w.lines[0].prevHash, s.w.lines[0].eventHash);
    UnreadFile(RRun(s, ticks).w.lines, ahead);
  }

  // ---------- what the verifier then says ----------

  lemma NothingAgainst(b: seq<JsonEvent>)
    ensures var m := FirstMismatch([TraceError(1)], b);
            (m.None? <==> Checked(b) == []) && (m.Some? ==> m.value.index == Some(0))
    ensures var m := FirstMismatch(b, [TraceError(1)]);
            (m.None? <==> Checked(b) == []) && (m.Some? ==> m.value.index == Some(0))
  {
    hide Checked, FirstMismatch, ComparableEvent;
    StandInUnchecked();
    MismatchIs([TraceError(1)], b);
    MismatchIs(b, [TraceError(1)]);
  }

  /** An unreadable recording: the queue is complete, but the verifier compares nothing with what the replay
      did, and so finds a mismatch at 0 exactly when the replay did anything that is compared; unless decoding
      has met a byte that is not UTF-8, and there is no answer at all. */
  lemma UnreadRecordingComparesNothing(runId: string, pid: int, now: nat, target: string, ticks: seq<Tick>,
                                       runId2: string, pid2: int, now2: nat, target2: string, live: seq<Tick>,
                                       ahead: nat, ahead2: nat)
    requires Within(runId, pid, now, target, ticks) && Unreadable(runId, pid, now, target)
    requires LegibleRun(runId2, pid2, now2, target2, live)
    ensures var rec := Run(Start(runId, pid, now, target), ticks);
            var queue := QueueOfText(FileText(rec.w.lines));
            var rep := RRun(Begin(runId2, pid2, now2, target2, queue, rec.w.payload), live);
            var a, b := LoadEvents(FileText(rec.w.lines), ahead), LoadEvents(FileText(rep.w.lines), ahead2);
            && queue == QueueOfEvents(OwnEvents(rec.w.lines))
            && (a.Some? <==> Decodable(FileText(rec.w.lines), ahead)) && b.Some?
            && (a.Some? ==>
                 var m := FirstMismatch(a.value, b.value);
                 (m.None? <==> Seen(rep) == []) && (m.Some? ==> m.value.index == Some(0)))
  {
    hide LegibleRun, RunTyped, LoaderNames, Unreadable, Run, Start, RRun, Begin, View, Checked, FileText, QueueOfText;
    hide QueueOfEvents, OwnEvents, Sound, Intact, PayloadsNonempty, Following, OnTrack, Seen, QueueTyped, FirstMismatch;
    hide LoadEvents, LoadQuietly, DataTotal, CallsOf, OffTrack, Lives, Decodable;
    var rec := Run(Start(runId, pid, now, target), ticks);
    var queue := QueueOfEvents(OwnEvents(rec.w.lines));
    LoadOfRecording(runId, pid, now, target, ticks);
    WithinParts(runId, pid, now, target, ticks);
    RecordingUnread(runId, pid, now, target, ticks, ahead);
    RecordingQueueTyped(runId, pid, now, target, ticks, ParseableHook);
    ReplayLoads(runId2, pid2, now2, target2, queue, rec.w.payload, live, ahead2);
    RecordingIsFaithful(runId, pid, now, target, ticks);
    SoundIntact(rec, CallsOf(ticks, None));
    BeginOnTrack(runId2, pid2, now2, target2, queue, rec.w.payload);
    var begin := Begin(runId2, pid2, now2, target2, queue, rec.w.payload);
    RunOnTrack(begin, live);
    var rep := RRun(begin, live);
    FollowingParts(rep);
    SeenIsChecked(rep);
    NothingAgainst(View(rep.w.lines));
  }

  lemma WithinParts(runId: string, pid: int, now: nat, target: string, ticks: seq<Tick>)
    requires Within(runId, pid, now, target, ticks)
    ensures |runId| <= MAX_RUN_ID && IsInt(pid) && IsULong(now)
  {
    hide Harmless, Silent;
  }

  /** An unreadable replay: the verifier finds a mismatch at 0 exactly when the recording queued anything,
      even if the replay served all of it. */
  lemma UnreadReplayComparesNothing(runId: string, pid: int, now: nat, target: string, ticks: seq<Tick>,
                                    runId2: string, pid2: int, now2: nat, target2: string, live: seq<Tick>,
                                    ahead: nat, ahead2: nat)
    requires LegibleRun(runId, pid, now, target, ticks) && DataTotal(CallsOf(ticks, None)) <= LONG_MAX
    requires Unreadable(runId2, pid2, now2, target2) && |runId2| <= MAX_RUN_ID && IsInt(pid2) && IsULong(now2)
    ensures var rec := Run(Start(runId, pid, now, target), ticks);
            var queue := QueueOfText(FileText(rec.w.lines));
            var rep := RRun(Begin(runId2, pid2, now2, target2, queue, rec.w.payload), live);
            var a, b := LoadEvents(FileText(rec.w.lines), ahead), LoadEvents(FileText(rep.w.lines), ahead2);
            && a.Some? && (b.Some? <==> Decodable(FileText(rep.w.lines), ahead2))
            && (b.Some? ==>
                 var m := FirstMismatch(a.value, b.value);
                 (m.None? <==> queue == []) && (m.Some? ==> m.value.index == Some(0)))
  {
    hide LegibleRun, Within, Unreadable, Run, Start, RRun, Begin, View, Checked, FileText, QueueOfText, QueueOfEvents;
    hide OwnEvents, Sound, PayloadsNonempty, FirstMismatch, LoadEvents, LoadQuietly, DataTotal, CallsOf, Decodable;
    hide Intact;
    var rec := Run(Start(runId, pid, now, target), ticks);
    LegibleIsWithin(runId, pid, now, target, ticks);
    LoadOfRecording(runId, pid, now, target, ticks);
    RecordingLoads(runId, pid, now, target, ticks, ahead);
    RecordingIsFaithful(runId, pid, now, target, ticks);
    SoundIntact(rec, CallsOf(ticks, None));
    LinesAgree(rec.w.lines);
    ReplayUnread(runId2, pid2, now2, target2, QueueOfEvents(OwnEvents(rec.w.lines)), rec.w.payload, live, ahead2);
    NothingAgainst(View(rec.w.lines));
  }
}
