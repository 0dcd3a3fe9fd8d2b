/** The whole of events.jsonl: the recorder's lines and the hook's lines share one file, numbered by
    two counters that know nothing of each other. */
module TraceFile {
  import opened TraceEvent
  import opened TraceLog
  import Hash
  import HashChain
  import Ptrace
  import Recorder
  import SyncHook

  function NumberOf(l: Line): nat { if l.Own? then l.event.stamp.seqNo else l.hook.seqNo }

  predicate NumbersDistinct(lines: seq<Line>) {
    forall j, k :: 0 <= j < k < |lines| ==> NumberOf(lines[j]) != NumberOf(lines[k])
  }

  function HookEvents(lines: seq<Line>): seq<HookEvent> {
    if lines == [] then []
    else if lines[|lines| - 1].Hook? then HookEvents(lines[..|lines| - 1]) + [lines[|lines| - 1].hook]
    else HookEvents(lines[..|lines| - 1])
  }

  /** The hook lines of the file are the protocol's log, line for line. */
  ghost predicate HooksAre(lines: seq<Line>, log: seq<SyncHook.Record>) {
    |HookEvents(lines)| == |log| && forall i :: 0 <= i < |log| ==> HookEvents(lines)[i].seqNo == log[i].seqNo
  }

  lemma {:induction false} OwnPlace(lines: seq<Line>, k: nat)
    requires k < |lines| && lines[k].Own?
    ensures |OwnEvents(lines[..k])| < |OwnEvents(lines)|
    ensures OwnEvents(lines)[|OwnEvents(lines[..k])|] == lines[k].event
  {
    var front := lines[..|lines| - 1];
    if k < |lines| - 1 {
      OwnPlace(front, k);
      assert front[..k] == lines[..k];
    }
  }

  lemma {:induction false} OwnPlaceRises(lines: seq<Line>, j: nat, k: nat)
    requires j < k <= |lines| && lines[j].Own?
    ensures |OwnEvents(lines[..j])| < |OwnEvents(lines[..k])|
  {
    OwnPlace(lines[..k], j);
    assert lines[..k][..j] == lines[..j];
  }

  lemma {:induction false} HookPlace(lines: seq<Line>, k: nat)
    requires k < |lines| && lines[k].Hook?
    ensures |HookEvents(lines[..k])| < |HookEvents(lines)|
    ensures HookEvents(lines)[|HookEvents(lines[..k])|] == lines[k].hook
  {
    var front := lines[..|lines| - 1];
    if k < |lines| - 1 {
      HookPlace(front, k);
      assert front[..k] == lines[..k];
    }
  }

  lemma HookPlaceRises(lines: seq<Line>, j: nat, k: nat)
    requires j < k <= |lines| && lines[j].Hook?
    ensures |HookEvents(lines[..j])| < |HookEvents(lines[..k])|
  {
    HookPlace(lines[..k], j);
    assert lines[..k][..j] == lines[..j];
  }

  /** The number of an own line is how many own lines there are up to it. */
  lemma OwnNumber(w: Writer, k: nat)
    requires Chained(w) && k < |w.lines| && w.lines[k].Own?
    ensures NumberOf(w.lines[k]) == |OwnEvents(w.lines[..k])| + 1 <= w.seqNo
  {
    hide OwnEvents, ChainRecomputes;
    OwnPlace(w.lines, k);
  }

  lemma {:induction false} OwnNumberTaken(lines: seq<Line>, n: nat) returns (k: nat)
    requires 1 <= n <= |OwnEvents(lines)|
    ensures k < |lines| && lines[k].Own? && |OwnEvents(lines[..k])| == n - 1
  {
    k := |lines| - 1;
    if n <= |OwnEvents(lines[..k])| {
      var front := lines[..k];
      k := OwnNumberTaken(front, n);
      assert lines[..k] == front[..k];
    }
  }

  /** Numbers in the file are all different exactly when the recorder has not yet counted up to any
      number the hook used. */
  lemma DistinctExactly(w: Writer, log: seq<SyncHook.Record>)
    requires Chained(w) && HooksAre(w.lines, log)
    requires forall i, j :: 0 <= i < j < |log| ==> log[i].seqNo != log[j].seqNo
    requires forall i :: 0 <= i < |log| ==> log[i].seqNo > 0
    ensures NumbersDistinct(w.lines) <==> forall i :: 0 <= i < |log| ==> log[i].seqNo > w.seqNo
  {
    hide OwnEvents, HookEvents, Chained;
    if forall i :: 0 <= i < |log| ==> log[i].seqNo > w.seqNo {
      forall j, k | 0 <= j < k < |w.lines|
        ensures NumberOf(w.lines[j]) != NumberOf(w.lines[k])
      {
        PairDistinct(w, log, j, k);
      }
    } else {
      var i :| 0 <= i < |log| && log[i].seqNo <= w.seqNo;
      NumberTwice(w, log, i);
    }
  }

  lemma PairDistinct(w: Writer, log: seq<SyncHook.Record>, j: nat, k: nat)
    requires Chained(w) && HooksAre(w.lines, log) && j < k < |w.lines|
    requires forall i, l :: 0 <= i < l < |log| ==> log[i].seqNo != log[l].seqNo
    requires forall i :: 0 <= i < |log| ==> log[i].seqNo > w.seqNo
    ensures NumberOf(w.lines[j]) != NumberOf(w.lines[k])
  {
    hide OwnEvents, HookEvents, Chained;
    if w.lines[j].Own? {
      OwnNumber(w, j);
      OwnPlaceRises(w.lines, j, k);
    } else {
      HookPlace(w.lines, j);
      HookPlaceRises(w.lines, j, k);
    }
    if w.lines[k].Own? {
      OwnNumber(w, k);
    } else {
      HookPlace(w.lines, k);
    }
  }

  lemma {:induction false} HookAt(lines: seq<Line>, i: nat) returns (k: nat)
    requires i < |HookEvents(lines)|
    ensures k < |lines| && lines[k].Hook? && lines[k].hook == HookEvents(lines)[i]
  {
    k := |lines| - 1;
    if i < |HookEvents(lines[..k])| {
      k := HookAt(lines[..k], i);
    }
  }

  lemma NumberTwice(w: Writer, log: seq<SyncHook.Record>, i: nat)
    requires Chained(w) && HooksAre(w.lines, log) && i < |log| && 0 < log[i].seqNo <= w.seqNo
    ensures !NumbersDistinct(w.lines)
  {
    hide OwnEvents, HookEvents, ChainRecomputes;
    var h := HookAt(w.lines, i);
    var o := OwnNumberTaken(w.lines, log[i].seqNo);
    OwnNumber(w, o);
    assert NumberOf(w.lines[o]) == NumberOf(w.lines[h]) && o != h;
    assert NumberOf(w.lines[if o < h then o else h]) == NumberOf(w.lines[if o < h then h else o]);
  }

  // ---------- a file that is already there ----------

  lemma {:induction false} OwnEventsConcat(a: seq<Line>, b: seq<Line>)
    ensures OwnEvents(a + b) == OwnEvents(a) + OwnEvents(b)
  {
    if b == [] {
      assert a + b == a;
    } else {
      var n := |b| - 1;
      assert (a + b)[..|a + b| - 1] == a + b[..n];
      OwnEventsConcat(a, b[..n]);
    }
  }

  /** A writer that appends to hook lines alone is as good as one that starts on an empty file. */
  lemma AppendedChained(before: seq<Line>, w: Writer)
    requires Chained(w) && OwnEvents(before) == []
    ensures Chained(w.(lines := before + w.lines))
  {
    hide OwnEvents, Bodies, Body, HashChain.ChainHash, HashChain.LastHash;
    var lines := before + w.lines;
    OwnEventsConcat(before, w.lines);
    assert [] + OwnEvents(w.lines) == OwnEvents(w.lines);
    forall k | 0 <= k < |lines| && lines[k].Own?
      ensures |before| <= k && OwnEvents(lines[..k]) == OwnEvents(w.lines[..k - |before|])
    {
      if k < |before| {
        OwnPlace(before, k);
      } else {
        assert lines[..k] == before + w.lines[..k - |before|];
        OwnEventsConcat(before, w.lines[..k - |before|]);
        assert [] + OwnEvents(w.lines[..k - |before|]) == OwnEvents(w.lines[..k - |before|]);
      }
    }
    assert forall k :: |before| <= k < |lines| ==> lines[k] == w.lines[k - |before|];
  }

  lemma {:induction false} HookEventsConcat(a: seq<Line>, b: seq<Line>)
    ensures HookEvents(a + b) == HookEvents(a) + HookEvents(b)
  {
    if b == [] {
      assert a + b == a;
    } else {
      var n := |b| - 1;
      assert (a + b)[..|a + b| - 1] == a + b[..n];
      HookEventsConcat(a, b[..n]);
    }
  }

  /** events.jsonl is opened for appending, and a tracer counts from 1 again: after an earlier run's lines a new
      run repeats a number, whatever the hooks did. */
  lemma SecondRunRepeats(before: Writer, w: Writer)
    requires Chained(before) && Chained(w) && OwnEvents(before.lines) != [] && OwnEvents(w.lines) != []
    ensures !NumbersDistinct(before.lines + w.lines)
  {
    hide OwnEvents, ChainRecomputes;
    var lines := before.lines + w.lines;
    var j := OwnNumberTaken(before.lines, 1);
    var k := OwnNumberTaken(w.lines, 1);
    OwnNumber(before, j);
    OwnNumber(w, k);
    assert NumberOf(lines[j]) == 1 == NumberOf(lines[|before.lines| + k]);
  }

  /** The numbers of a protocol's log: all different, and none is 0. */
  ghost predicate LogNumbered(log: seq<SyncHook.Record>) {
    && (forall i, j :: 0 <= i < j < |log| ==> log[i].seqNo != log[j].seqNo)
    && (forall i :: 0 <= i < |log| ==> log[i].seqNo > 0)
  }

  lemma SameHookNumber(before: seq<Line>, lines: seq<Line>, log0: seq<SyncHook.Record>, log: seq<SyncHook.Record>,
                       i: nat, k: nat)
    requires HooksAre(before, log0) && HooksAre(lines, log) && i < |log0| && k < |log| && log0[i].seqNo == log[k].seqNo
    ensures !NumbersDistinct(before + lines)
  {
    hide HookEvents;
    var x := HookAt(before, i);
    var y := HookAt(lines, k);
    assert NumberOf((before + lines)[x]) == NumberOf((before + lines)[|before| + y]);
  }

  /** One log for the hook lines of both. */
  lemma JoinedLog(before: seq<Line>, lines: seq<Line>, log0: seq<SyncHook.Record>, log: seq<SyncHook.Record>)
    requires HooksAre(before, log0) && HooksAre(lines, log) && LogNumbered(log0) && LogNumbered(log)
    requires forall i, k :: 0 <= i < |log0| && 0 <= k < |log| ==> log0[i].seqNo != log[k].seqNo
    ensures HooksAre(before + lines, log0 + log) && LogNumbered(log0 + log)
  {
    hide HookEvents;
    var all := log0 + log;
    HookEventsConcat(before, lines);
    assert forall i :: 0 <= i < |all| ==> all[i] == if i < |log0| then log0[i] else log[i - |log0|];
  }

  /** Behind the lines of an earlier run or of its hook, each with a counter of its own, the numbers are all
      different exactly when no tracer wrote before, no hook number is counted up to, and the two hooks used
      different numbers. */
  lemma AppendedNumbersDistinct(before: Writer, w: Writer, log0: seq<SyncHook.Record>, log: seq<SyncHook.Record>)
    requires Chained(before) && Chained(w) && w.seqNo > 0
    requires HooksAre(before.lines, log0) && HooksAre(w.lines, log) && LogNumbered(log0) && LogNumbered(log)
    ensures NumbersDistinct(before.lines + w.lines) <==>
            && OwnEvents(before.lines) == []
            && (forall i :: 0 <= i < |log0 + log| ==> (log0 + log)[i].seqNo > w.seqNo)
            && (forall i, k :: 0 <= i < |log0| && 0 <= k < |log| ==> log0[i].seqNo != log[k].seqNo)
  {
    hide OwnEvents, NumbersDistinct, HooksAre, LogNumbered, Chained;
    if OwnEvents(before.lines) != [] {
      OwnCounted(w);
      SecondRunRepeats(before, w);
    } else if i, k :| 0 <= i < |log0| && 0 <= k < |log| && log0[i].seqNo == log[k].seqNo {
      SameHookNumber(before.lines, w.lines, log0, log, i, k);
    } else {
      AppendedChained(before.lines, w);
      JoinedLog(before.lines, w.lines, log0, log);
      LogParts(log0 + log);
      DistinctExactly(w.(lines := before.lines + w.lines), log0 + log);
    }
  }

  lemma OwnCounted(w: Writer)
    requires Chained(w) && w.seqNo > 0
    ensures OwnEvents(w.lines) != []
  {
    hide ChainRecomputes, OwnEvents;
  }

  lemma LogParts(log: seq<SyncHook.Record>)
    requires LogNumbered(log)
    ensures forall i, j :: 0 <= i < j < |log| ==> log[i].seqNo != log[j].seqNo
    ensures forall i :: 0 <= i < |log| ==> log[i].seqNo > 0
  {
  }

  lemma StepCounts(s: Recorder.State, t: Ptrace.Tick)
    ensures Recorder.Step(s, t).w.seqNo >= s.w.seqNo
  {
    hide HashChain.ChainHash, Ptrace.CallData, Hash.HexDigest, Body;
  }

  lemma {:induction false} RunCounts(s: Recorder.State, ticks: seq<Ptrace.Tick>)
    ensures Recorder.Run(s, ticks).w.seqNo >= s.w.seqNo
    decreases |ticks|
  {
    hide Recorder.Step;
    if ticks != [] {
      StepCounts(s, ticks[0]);
      RunCounts(Recorder.Step(s, ticks[0]), ticks[1..]);
    }
  }

  lemma StartCounts(runId: string, pid: int, now: nat, target: string)
    ensures Recorder.Start(runId, pid, now, target).w.seqNo == 1
  {
    hide HashChain.ChainHash, Body;
  }

  lemma LogIsNumbered(init: SyncHook.State, moves: seq<SyncHook.Move>, end: SyncHook.State)
    requires SyncHook.Init(init) && SyncHook.Reaches(init, moves, end)
    ensures LogNumbered(end.log) && forall i :: 0 <= i < |end.log| ==> end.log[i].seqNo > SyncHook.FIRST_SEQ
  {
    hide SyncHook.Init, SyncHook.Reaches;
    SyncHook.LogIsSound(init, moves, end, 0);
  }

  /** A recording of any run, with hook lines from any interleaving of any threads, appended to what an
      earlier run and its hook left, each hook counting from 10^9: as long as the recorder wrote at most 10^9
      lines, every number in the file is different exactly when the earlier run left no tracer's line, as in a
      new directory, and no number of its hook came up again. */
  lemma RecordedNumbersDistinct(before: Writer, init0: SyncHook.State, moves0: seq<SyncHook.Move>, end0: SyncHook.State,
                                runId: string, pid: int, now: nat, target: string, ticks: seq<Ptrace.Tick>,
                                init: SyncHook.State, moves: seq<SyncHook.Move>, end: SyncHook.State)
    requires Chained(before) && SyncHook.Init(init0) && SyncHook.Reaches(init0, moves0, end0)
    requires HooksAre(before.lines, end0.log) && SyncHook.Init(init) && SyncHook.Reaches(init, moves, end)
    requires HooksAre(Recorder.Run(Recorder.Start(runId, pid, now, target), ticks).w.lines, end.log)
    requires Recorder.Run(Recorder.Start(runId, pid, now, target), ticks).w.seqNo <= SyncHook.FIRST_SEQ
    ensures NumbersDistinct(before.lines + Recorder.Run(Recorder.Start(runId, pid, now, target), ticks).w.lines)
        <==> OwnEvents(before.lines) == []
             && forall i, k :: 0 <= i < |end0.log| && 0 <= k < |end.log| ==> end0.log[i].seqNo != end.log[k].seqNo
  {
    hide Recorder.Run, Recorder.Start, SyncHook.Reaches, SyncHook.Init, HooksAre, NumbersDistinct, Chained, LogNumbered;
    hide OwnEvents;
    var w := Recorder.Run(Recorder.Start(runId, pid, now, target), ticks).w;
    Recorder.RecordingIsFaithful(runId, pid, now, target, ticks);
    StartCounts(runId, pid, now, target);
    RunCounts(Recorder.Start(runId, pid, now, target), ticks);
    LogIsNumbered(init0, moves0, end0);
    LogIsNumbered(init, moves, end);
    assert forall i :: 0 <= i < |end0.log + end.log| ==>
             (end0.log + end.log)[i] == if i < |end0.log| then end0.log[i] else end.log[i - |end0.log|];
    AppendedNumbersDistinct(before, w, end0.log, end.log);
  }
}
