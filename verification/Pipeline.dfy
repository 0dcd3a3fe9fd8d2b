/** Record, replay and verify composed: what the verifier's answer says about any live run. */
module Pipeline {
  import opened CText
  import opened Sha256
  import opened TraceEvent
  import opened TraceLog
  import opened ReplayQueue
  import opened Ptrace
  import opened Recorder
  import opened Replayer
  import opened Verifier
  import opened DriftDetection
  import opened TraceText
  import opened TraceReader
  import opened TraceShape

  // ---------- a recording's queue is intact ----------

  ghost predicate EventIntact(e: Event, store: seq<byte>) {
    e.Syscall? && e.payload.Some? ==>
      e.payload.value.length > 0 && ReadPayload(store, e.payload.value.offset, e.payload.value.length).Some?
  }

  lemma QueueEntryIntact(e: Event, store: seq<byte>)
    requires EventIntact(e, store)
    ensures Intact(AsSeq(QueueEntry(e)), store)
  {
    hide SyscallName;
    assert ReadPayload(store, 0, 0) == Some([]);
  }

  lemma {:induction false} EventsIntact(events: seq<Event>, store: seq<byte>)
    requires forall i :: 0 <= i < |events| ==> EventIntact(events[i], store)
    ensures Intact(QueueOfEvents(events), store) && PayloadsNonempty(events)
  {
    hide QueueEntry, ReadPayload, SyscallName;
    if events != [] {
      var p, e := events[..|events| - 1], events[|events| - 1];
      EventsIntact(p, store);
      assert EventIntact(e, store);
      QueueEntryIntact(e, store);
    }
  }

  lemma TiledIntact(events: seq<Event>, store: seq<byte>, k: nat)
    requires Tiled(events, store) && k < |events|
    ensures EventIntact(events[k], store)
  {
    hide PayloadEnd;
    var e := events[k];
    if e.Syscall? && e.payload.Some? {
      PayloadEndAppend(events[..k], e);
      assert events[..k] + [e] == events[..k + 1] && events[..|events|] == events;
      PayloadEndMonotone(events, k + 1, |events|);
    }
  }

  lemma SoundIntact(s: State, calls: seq<Call>)
    requires Sound(s, calls)
    ensures Intact(QueueOfEvents(OwnEvents(s.w.lines)), s.w.payload) && PayloadsNonempty(OwnEvents(s.w.lines))
  {
    hide Chained, TellsAll, Tiled, EventIntact, QueueOfEvents, OwnEvents;
    var events := OwnEvents(s.w.lines);
    forall k | 0 <= k < |events|
      ensures EventIntact(events[k], s.w.payload)
    {
      TiledIntact(events, s.w.payload, k);
    }
    EventsIntact(events, s.w.payload);
  }

  // ---------- drift detection ----------

  lemma BeginOnTrack(runId: string, pid: int, now: nat, target: string, queue: seq<ReplayEvent>, store: seq<byte>)
    requires Intact(queue, store)
    ensures var s := Begin(runId, pid, now, target, queue, store);
            Following(s) && OnTrack(s) && s.queue == queue && !s.done
  {
    hide Intact, Chained, OwnEvents, QueueOfEvents, Expected, EmitProcess, PayloadsNonempty;
    var w := NewWriter(runId, pid);
    NewWriterChained(runId, pid);
    var s := RState(w, false, NO_ENTRY, target, false, None, queue, store, 0, None);
    NothingSeen(w);
    ProcessFollows(s, now, "program_start");
    assert ExpectedAll(queue)[..0] == [];
  }

  lemma NothingSeen(w: Writer)
    requires w.lines == []
    ensures OwnEvents(w.lines) == [] && QueueOfEvents([]) == [] && PayloadsNonempty(OwnEvents(w.lines))
  {
  }

  lemma NoStray(lives: seq<LiveCall>)
    ensures FirstStray(lives).None? <==> forall i :: 0 <= i < |lives| ==> !Strayed(lives[i])
  {
    hide Strayed;
    if lives != [] {
      NoStray(lives[1..]);
      if FirstStray(lives).None? {
        forall i | 0 <= i < |lives|
          ensures !Strayed(lives[i])
        {
          assert i > 0 ==> lives[i] == lives[1..][i - 1];
        }
      } else if !Strayed(lives[0]) {
        var i :| 0 <= i < |lives[1..]| && Strayed(lives[1..][i]);
        assert lives[i + 1] == lives[1..][i];
      }
    }
  }

  /** Where the two compared sequences part, for a run that ended in state v. */
  lemma WherePaths(v: RState, stray: Option<LiveCall>)
    requires v.cursor <= |v.queue|
    requires stray.None? ==> OnTrack(v)
    requires stray.Some? ==> OffTrack(v, stray.value.cursor)
    ensures var q := ExpectedAll(v.queue);
            && (q == Seen(v) <==> stray.None? && v.cursor == |v.queue|)
            && (q != Seen(v) ==> FirstDifference(q, Seen(v), if stray.Some? then stray.value.cursor else v.cursor))
  {
    hide Seen, Expected;
    var q := ExpectedAll(v.queue);
    if stray.None? {
      assert q[..|q|] == q;
    } else {
      var c := stray.value.cursor;
      assert c < |q| ==> q[c] != Seen(v)[c];
    }
  }

  /** The compared events of a replay are read off its file. */
  lemma SeenIsChecked(v: RState)
    requires PayloadsNonempty(OwnEvents(v.w.lines))
    ensures Comparables(Checked(View(v.w.lines))) == Seen(v)
  {
    hide Checked, View, OwnEvents, QueueOfEvents, PayloadsNonempty, Expected;
    LinesAgree(v.w.lines);
  }

  /** Drift detection is exact for every live run, even an unrelated one.  Given the text of the file of
      any recording and of the replay, first_sequence_mismatch finds nothing exactly when the replay's
      cursor reached the end of the queue and every live clock or random read was served from it;
      otherwise the index it reports is the cursor at the first unserved one of those, or else the final
      cursor. */
  lemma DriftDetectionIsExact(runId: string, pid: int, now: nat, target: string, ticks: seq<Tick>,
                              runId2: string, pid2: int, now2: nat, target2: string, live: seq<Tick>,
                              ahead: nat, ahead2: nat)
    requires LegibleRun(runId, pid, now, target, ticks) && DataTotal(CallsOf(ticks, None)) <= LONG_MAX
    requires LegibleRun(runId2, pid2, now2, target2, live)
    ensures var rec := Run(Start(runId, pid, now, target), ticks);
            var begin := Begin(runId2, pid2, now2, target2, QueueOfText(FileText(rec.w.lines)), rec.w.payload);
            var rep, lives := RRun(begin, live), Lives(begin, live);
            var a, b := LoadEvents(FileText(rec.w.lines), ahead), LoadEvents(FileText(rep.w.lines), ahead2);
            && a.Some? && b.Some?
            && var m := FirstMismatch(a.value, b.value);
               && (m.None? <==> rep.cursor == |rep.queue| && forall i :: 0 <= i < |lives| ==> !Strayed(lives[i]))
               && (m.Some? ==> m.value.index == Some(match FirstStray(lives)
                                                     case Some(c) => c.cursor
                                                     case None => rep.cursor))
  {
    hide LegibleRun, Within, Run, Start, RRun, Begin, View, Checked, FileText, QueueOfText, QueueOfEvents, OwnEvents;
    hide Sound, Intact, PayloadsNonempty, Following, OnTrack, OffTrack, Strayed, Lives, Seen, Expected, QueueTyped;
    hide ExpectedAll, FirstDifference, FirstMismatch, LoadEvents, LoadQuietly, DataTotal, CallsOf;
    var rec := Run(Start(runId, pid, now, target), ticks);
    var queue := QueueOfEvents(OwnEvents(rec.w.lines));
    LegibleIsWithin(runId, pid, now, target, ticks);
    LoadOfRecording(runId, pid, now, target, ticks);
    RecordingLoads(runId, pid, now, target, ticks, ahead);
    QueueCanBeReplayed(runId, pid, now, target, ticks);
    ReplayLoads(runId2, pid2, now2, target2, queue, rec.w.payload, live, ahead2);
    RecordingIsFaithful(runId, pid, now, target, ticks);
    SoundIntact(rec, CallsOf(ticks, None));
    LinesAgree(rec.w.lines);
    var begin := Begin(runId2, pid2, now2, target2, queue, rec.w.payload);
    BeginOnTrack(runId2, pid2, now2, target2, queue, rec.w.payload);
    RunOnTrack(begin, live);
    var rep, lives := RRun(begin, live), Lives(begin, live);
    FollowingParts(rep);
    SeenIsChecked(rep);
    WherePaths(rep, FirstStray(lives));
    NoStray(lives);
    var m := FirstMismatch(View(rec.w.lines), View(rep.w.lines));
    MismatchIs(View(rec.w.lines), View(rep.w.lines));
    if m.Some? {
      FirstDifferenceUnique(ExpectedAll(queue), Seen(rep), m.value.index.value,
                            if FirstStray(lives).Some? then FirstStray(lives).value.cursor else rep.cursor);
    }
  }

  lemma QueueCanBeReplayed(runId: string, pid: int, now: nat, target: string, ticks: seq<Tick>)
    requires LegibleRun(runId, pid, now, target, ticks) && DataTotal(CallsOf(ticks, None)) <= LONG_MAX
    ensures QueueTyped(QueueOfEvents(OwnEvents(Run(Start(runId, pid, now, target), ticks).w.lines)))
  {
    hide LegibleNames, RunTyped, Run, Start, QueueOfEvents, OwnEvents, QueueTyped, DataTotal, CallsOf;
    RecordingQueueTyped(runId, pid, now, target, ticks, LegibleHook);
  }

  /** What first_sequence_mismatch says of two lists of events, in terms of what it compares of them. */
  lemma MismatchIs(a: seq<JsonEvent>, b: seq<JsonEvent>)
    ensures var m, x, y := FirstMismatch(a, b), Comparables(Checked(a)), Comparables(Checked(b));
            && (m.None? <==> x == y)
            && (m.Some? ==> m.value.index.Some? && FirstDifference(x, y, m.value.index.value) && x != y)
  {
    hide Checked;
    var m, x, y := FirstMismatch(a, b), Comparables(Checked(a)), Comparables(Checked(b));
    if m.Some? {
      FirstDifferenceMeansUnequal(x, y, m.value.index.value);
    }
  }

  lemma FollowingParts(s: RState)
    requires Following(s)
    ensures s.cursor <= |s.queue| && PayloadsNonempty(OwnEvents(s.w.lines))
  {
  }
}
