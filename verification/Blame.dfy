/** The two counters, the verifier and the analyzer together: the hook numbers its lines from 10^9,
    so a mismatch between numbered tracer events is never blamed on synchronization. */
module Blame {
  import opened CText
  import opened Sha256
  import opened TraceEvent
  import opened TraceLog
  import opened Verifier
  import opened EventDecode
  import opened TraceReader
  import opened TraceText
  import opened TraceBounds
  import opened TraceShape
  import opened TraceFile
  import opened Analyzer
  import opened Ptrace
  import Recorder
  import Replayer
  import SyncHook

  // ---------- no tracer event is named after a mutex ----------

  lemma {:induction false} FoundNeeds(s: string, needle: string, c: char)
    requires c in needle && FindAfter(s, needle).Some?
    ensures c in s
  {
    if needle <= s {
      assert s == needle + s[|needle|..];
    } else {
      FoundNeeds(s[1..], needle, c);
    }
  }

  /** Process events carry one of the three names the tracers use. */
  predicate KnownNames(lines: seq<Line>) {
    forall k :: 0 <= k < |lines| && lines[k].Own? && lines[k].event.Process? ==> TracerName(lines[k].event.name)
  }

  lemma SyscallNameWithoutMutex(no: int)
    ensures 'm' !in SyscallName(no) || 'u' !in SyscallName(no)
  {
    hide SignedDecimal;
    SignedDecimalLacks(no, 'u');
  }

  lemma TracerNameWithoutMutex(name: string)
    requires TracerName(name)
    ensures 'u' !in name
  {
  }

  lemma OwnNotSync(e: Event)
    ensures !IsSync(ViewEvent(e))
  {
    hide SyscallName, ErrnoOf;
    assert "PROCESS"[0] == 'P' && "SYNC"[0] == 'S' && "SYSCALL"[2] == 'S' && "SYNC"[2] == 'N';
  }

  lemma NameWithoutMutex(e: Event)
    requires e.Process? ==> TracerName(e.name)
    ensures !MentionsMutex(ViewEvent(e))
  {
    hide FindAfter, ErrnoOf, SyscallName, TracerName;
    var name := ViewEvent(e).name.value;
    if e.Syscall? {
      SyscallNameWithoutMutex(e.entry.no);
    } else {
      TracerNameWithoutMutex(e.name);
    }
    assert "mutex"[0] == 'm' && "mutex"[1] == 'u';
    if FindAfter(name, "mutex").Some? {
      FoundNeeds(name, "mutex", 'm');
      FoundNeeds(name, "mutex", 'u');
    }
  }

  // ---------- what each line of a file can be ----------

  /** A tracer's event, numbered by the tracer, or a hook's, numbered by the hook. */
  predicate EitherSide(e: JsonEvent, last: nat) {
    || (!IsSync(e) && !MentionsMutex(e) && e.seqNo.Some? && e.seqNo.value <= last)
    || (IsSync(e) && e.seqNo.Some? && e.seqNo.value > SyncHook.FIRST_SEQ)
  }

  ghost predicate HooksAbove(lines: seq<Line>) {
    forall k :: 0 <= k < |lines| && lines[k].Hook? ==> lines[k].hook.seqNo > SyncHook.FIRST_SEQ
  }

  lemma {:induction false} ViewSides(lines: seq<Line>, last: nat)
    requires KnownNames(lines) && HooksAbove(lines)
    requires forall k :: 0 <= k < |lines| && lines[k].Own? ==> NumberOf(lines[k]) <= last
    ensures forall e :: e in View(lines) ==> EitherSide(e, last)
  {
    hide ViewEvent, ViewHook, IsSync, MentionsMutex, HookLine;
    if lines != [] {
      var p, l := lines[..|lines| - 1], lines[|lines| - 1];
      ViewSides(p, last);
      if l.Own? {
        OwnSide(l.event, last);
      } else {
        HookSide(l.hook, last);
      }
    }
  }

  lemma OwnSide(e: Event, last: nat)
    requires (e.Process? ==> TracerName(e.name)) && e.stamp.seqNo <= last
    ensures EitherSide(ViewEvent(e), last)
  {
    hide MentionsMutex, IsSync, SyscallName, ErrnoOf;
    NameWithoutMutex(e);
    OwnNotSync(e);
  }

  lemma HookSide(h: HookEvent, last: nat)
    requires h.seqNo > SyncHook.FIRST_SEQ
    ensures EitherSide(ViewHook(h), last)
  {
    hide MentionsMutex;
  }

  /** Around a tracer's number there is no hook line. */
  lemma WindowQuiet(events: seq<JsonEvent>, seqNo: int, last: nat)
    requires forall e :: e in events ==> EitherSide(e, last)
    requires seqNo <= last < 999_999_991
    ensures !AnySync(Window(events, Some(seqNo))) && !AnyMutex(Window(events, Some(seqNo)))
  {
    hide IsSync, MentionsMutex;
    forall e | e in Window(events, Some(seqNo))
      ensures !IsSync(e) && !MentionsMutex(e)
    {
      assert e in events && Near(e, seqNo);
    }
  }

  /** The bound is tight: from 999999991 on, the hook's first line is within ten. */
  lemma WindowLoud(events: seq<JsonEvent>, h: HookEvent)
    requires ViewHook(h) in events && h.seqNo == SyncHook.FIRST_SEQ + 1
    ensures AnySync(Window(events, Some(999_999_991)))
  {
    assert Near(ViewHook(h), 999_999_991) && IsSync(ViewHook(h));
    assert ViewHook(h) in Window(events, Some(999_999_991));
  }

  // ---------- the events a mismatch names ----------

  /** Input is what the replayer would serve: the analyzer's list of names and the tracers' list of numbers. */
  lemma InputIsReplayable(e: Event)
    requires e.Process? ==> TracerName(e.name)
    ensures IsInput(ViewEvent(e)) <==> e.Syscall? && IsReplayable(e.entry.no)
  {
    hide ErrnoOf;
    if e.Syscall? {
      InputNames(e.entry.no);
    } else {
      assert e.name[0] == 'p';
    }
  }

  lemma InputNames(no: int)
    ensures SyscallName(no) in {"read", "getrandom", "clock_gettime", "gettimeofday"} <==> IsReplayable(no)
  {
    var g := "sys_" + SignedDecimal(no);
    assert g[0] == 's';
  }

  lemma CheckedNotSync(e: JsonEvent)
    requires IsChecked(e)
    ensures !IsSync(e)
  {
    assert "SYNC"[1] == 'Y' && "SYSCALL"[2] == 'S' && "SYNC"[2] == 'N' && "DRIFT"[0] == 'D' && "SYNC"[0] == 'S';
  }

  lemma MismatchNumber(events: seq<JsonEvent>, i: nat, last: nat)
    requires forall e :: e in events ==> EitherSide(e, last)
    requires i < |Checked(events)|
    ensures Checked(events)[i].seqNo.Some? && Checked(events)[i].seqNo.value <= last
  {
    hide Checked, IsChecked, IsSync, MentionsMutex;
    CheckedIsPart(events);
    var e := Checked(events)[i];
    assert e in Checked(events);
    CheckedNotSync(e);
  }

  /** Two traces whose tracers wrote fewer than 999999991 lines each: a mismatch that names an event of
      each never yields R-SYNC or R-DEADLOCK, however many hook lines there are around. */
  lemma NoSyncBlame(a: seq<JsonEvent>, b: seq<JsonEvent>, last: nat, r: Report, all: seq<Candidate>)
    requires forall e :: e in a ==> EitherSide(e, last)
    requires forall e :: e in b ==> EitherSide(e, last)
    requires last < 999_999_991
    requires r.firstMismatch == FirstMismatch(a, b) && r.firstMismatch.Some?
    requires r.firstMismatch.value.originalSeq.Some? && r.firstMismatch.value.replaySeq.Some?
    requires IsRanking(all, a, b, r)
    ensures forall c :: c in all ==> c.rule != Sync && c.rule != Deadlock
  {
    hide Checked, EitherSide, IsSync, IsInput, MentionsMutex, FirstDifference, Descending, Window, IsChecked;
    hide FirstMismatch;
    var m := r.firstMismatch.value;
    var i := m.index.value;
    assert i < |Checked(a)| && i < |Checked(b)|;
    MismatchNumber(a, i, last);
    MismatchNumber(b, i, last);
    WindowQuiet(a, m.originalSeq.value, last);
    WindowQuiet(b, m.replaySeq.value, last);
    assert !AnySync(Around(a, b, m)) && !AnyMutex(Around(a, b, m));
  }

  // ---------- every recording and every replay is such a trace ----------

  lemma ShapedNames(lines: seq<Line>, runId: string, target: string, kind: HookEvent -> bool)
    requires Shaped(lines, runId, target, kind)
    ensures KnownNames(lines)
  {
    hide IsHex;
    forall k | 0 <= k < |lines| && lines[k].Own? && lines[k].event.Process?
      ensures TracerName(lines[k].event.name)
    {
      assert LineShaped(lines[k], runId, target, kind);
    }
  }

  /** The hook's protocol numbers its lines above 10^9, wherever they ended up in the file. */
  lemma LogAbove(lines: seq<Line>, init: SyncHook.State, moves: seq<SyncHook.Move>, end: SyncHook.State)
    requires SyncHook.Init(init) && SyncHook.Reaches(init, moves, end) && HooksAre(lines, end.log)
    ensures HooksAbove(lines)
  {
    hide SyncHook.Init, SyncHook.Reaches, HookEvents;
    SyncHook.LogIsSound(init, moves, end, 0);
    forall k | 0 <= k < |lines| && lines[k].Hook?
      ensures lines[k].hook.seqNo > SyncHook.FIRST_SEQ
    {
      HookPlace(lines, k);
    }
  }

  lemma FileSides(w: Writer, last: nat)
    requires Chained(w) && KnownNames(w.lines) && HooksAbove(w.lines) && w.seqNo <= last
    ensures forall e :: e in View(w.lines) ==> EitherSide(e, last)
  {
    hide Chained, KnownNames, EitherSide, View;
    forall k | 0 <= k < |w.lines| && w.lines[k].Own?
      ensures NumberOf(w.lines[k]) <= last
    {
      OwnNumber(w, k);
    }
    ViewSides(w.lines, last);
  }

  lemma TwoFilesNoSyncBlame(a: Writer, b: Writer, all: seq<Candidate>, r: Report)
    requires Chained(a) && KnownNames(a.lines) && HooksAbove(a.lines) && a.seqNo < 999_999_991
    requires Chained(b) && KnownNames(b.lines) && HooksAbove(b.lines) && b.seqNo < 999_999_991
    requires r.firstMismatch == FirstMismatch(View(a.lines), View(b.lines)) && r.firstMismatch.Some?
    requires r.firstMismatch.value.originalSeq.Some? && r.firstMismatch.value.replaySeq.Some?
    requires IsRanking(all, View(a.lines), View(b.lines), r)
    ensures forall c :: c in all ==> c.rule != Sync && c.rule != Deadlock
  {
    hide View, FirstMismatch, IsRanking, HooksAbove, KnownNames, Chained, EitherSide;
    FileSides(a, 999_999_990);
    FileSides(b, 999_999_990);
    NoSyncBlame(View(a.lines), View(b.lines), 999_999_990, r, all);
  }

  /** Any recording and any replay of any queue under legible names, their hook lines from any interleaving of
      any threads: the verifier reads both files and the analyzer too, and when the first mismatch has an
      event on both sides, synchronization is not among the proposed causes. */
  lemma RunsNoSyncBlame(runId: string, pid: int, now: nat, target: string, ticks: seq<Tick>,
                        runId2: string, pid2: int, now2: nat, target2: string, queue: seq<ReplayEvent>,
                        store: seq<byte>, live: seq<Tick>,
                        init: SyncHook.State, moves: seq<SyncHook.Move>, end: SyncHook.State,
                        init2: SyncHook.State, moves2: seq<SyncHook.Move>, end2: SyncHook.State,
                        ahead: nat, ahead2: nat)
    requires LegibleRun(runId, pid, now, target, ticks) && Recorder.DataTotal(CallsOf(ticks, None)) <= LONG_MAX
    requires LegibleRun(runId2, pid2, now2, target2, live) && QueueTyped(queue)
    requires SyncHook.Init(init) && SyncHook.Reaches(init, moves, end)
    requires HooksAre(Recorder.Run(Recorder.Start(runId, pid, now, target), ticks).w.lines, end.log)
    requires SyncHook.Init(init2) && SyncHook.Reaches(init2, moves2, end2)
    requires HooksAre(Replayer.RRun(Replayer.Begin(runId2, pid2, now2, target2, queue, store), live).w.lines, end2.log)
    ensures var a := Recorder.Run(Recorder.Start(runId, pid, now, target), ticks).w;
            var b := Replayer.RRun(Replayer.Begin(runId2, pid2, now2, target2, queue, store), live).w;
            var x, y := LoadEvents(FileText(a.lines), ahead), LoadEvents(FileText(b.lines), ahead2);
            && x.Some? && LoadQuietly(FileText(a.lines), ahead) == x
            && y.Some? && LoadQuietly(FileText(b.lines), ahead2) == y
            && forall r: Report, all: seq<Candidate> ::
                 && a.seqNo < 999_999_991 && b.seqNo < 999_999_991
                 && r.firstMismatch == FirstMismatch(x.value, y.value) && r.firstMismatch.Some?
                 && r.firstMismatch.value.originalSeq.Some? && r.firstMismatch.value.replaySeq.Some?
                 && IsRanking(all, x.value, y.value, r)
                 ==> forall c :: c in all ==> c.rule != Sync && c.rule != Deadlock
  {
    hide Recorder.Run, Recorder.Start, Replayer.RRun, Replayer.Begin, View, FirstMismatch, IsRanking, LegibleNames;
    hide RunTyped;
    hide HooksAbove, KnownNames, Chained, Recorder.TellsAll, Recorder.Tiled, LoadEvents, LoadQuietly, FileText;
    hide QueueTyped;
    hide SyncHook.Init, SyncHook.Reaches, HooksAre, Shaped, Recorder.DataTotal, CallsOf;
    var a := Recorder.Run(Recorder.Start(runId, pid, now, target), ticks).w;
    var b := Replayer.RRun(Replayer.Begin(runId2, pid2, now2, target2, queue, store), live).w;
    RecordingLoads(runId, pid, now, target, ticks, ahead);
    ReplayLoads(runId2, pid2, now2, target2, queue, store, live, ahead2);
    RecordingShaped(runId, pid, now, target, ticks, LegibleHook);
    ReplayShaped(runId2, pid2, now2, target2, queue, store, live, LegibleHook);
    ShapedNames(a.lines, runId, target, LegibleHook);
    ShapedNames(b.lines, runId2, target2, LegibleHook);
    LogAbove(a.lines, init, moves, end);
    LogAbove(b.lines, init2, moves2, end2);
    Recorder.RecordingIsFaithful(runId, pid, now, target, ticks);
    Replayer.ReplayChained(runId2, pid2, now2, target2, queue, store, live);
    forall r: Report, all: seq<Candidate>
      | && a.seqNo < 999_999_991 && b.seqNo < 999_999_991
        && r.firstMismatch == FirstMismatch(View(a.lines), View(b.lines)) && r.firstMismatch.Some?
        && r.firstMismatch.value.originalSeq.Some? && r.firstMismatch.value.replaySeq.Some?
        && IsRanking(all, View(a.lines), View(b.lines), r)
      ensures forall c :: c in all ==> c.rule != Sync && c.rule != Deadlock
    {
      TwoFilesNoSyncBlame(a, b, all, r);
    }
  }
}
