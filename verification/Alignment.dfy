/** When the replay's cursor serves every queued event at its own recorded position. */
module Alignment {
  import opened CText
  import opened Sha256
  import opened TraceEvent
  import opened TraceLog
  import opened ReplayQueue
  import opened Ptrace
  import opened Recorder
  import opened Replayer
  import opened DriftDetection
  import opened TraceShape
  import opened Pipeline

  // ---------- the cursor, on syscall numbers alone ----------

  /** A recorded replayable call: its number, and whether it went into the queue. */
  datatype QCall = QCall(no: int, queued: bool)

  function Nos(rec: seq<QCall>): (r: seq<int>)
    ensures |r| == |rec|
  {
    if rec == [] then [] else [rec[0].no] + Nos(rec[1..])
  }

  function QueuedNos(rec: seq<QCall>): seq<int> {
    if rec == [] then []
    else (if rec[0].queued then [rec[0].no] else []) + QueuedNos(rec[1..])
  }

  /** Which queued event each live call receives. */
  function Serve(nos: seq<int>, queue: seq<int>, cursor: nat): (r: seq<Option<nat>>)
    ensures |r| == |nos|
  {
    if nos == [] then []
    else if cursor < |queue| && queue[cursor] == nos[0] then [Some(cursor)] + Serve(nos[1..], queue, cursor + 1)
    else [None] + Serve(nos[1..], queue, cursor)
  }

  /** Which one it should receive: the event recorded at its own position, or none. */
  function OwnPositions(rec: seq<QCall>, cursor: nat): (r: seq<Option<nat>>)
    ensures |r| == |rec|
  {
    if rec == [] then []
    else if rec[0].queued then [Some(cursor)] + OwnPositions(rec[1..], cursor + 1)
    else [None] + OwnPositions(rec[1..], cursor)
  }

  /** No call left out of the queue has the number of the next queued event. */
  predicate NoTheft(rec: seq<QCall>) {
    forall i :: 0 <= i < |rec| && !rec[i].queued ==> !StealsNext(rec, i)
  }

  predicate StealsNext(rec: seq<QCall>, i: nat)
    requires i < |rec|
  {
    var later := QueuedNos(rec[i + 1..]);
    later != [] && later[0] == rec[i].no
  }

  lemma NoTheftCons(rec: seq<QCall>)
    requires rec != []
    ensures NoTheft(rec) <==> (rec[0].queued || !StealsNext(rec, 0)) && NoTheft(rec[1..])
  {
    hide QueuedNos;
    forall i | 0 <= i < |rec[1..]|
      ensures StealsNext(rec[1..], i) == StealsNext(rec, i + 1) && rec[1..][i] == rec[i + 1]
    {
      assert rec[1..][i + 1..] == rec[i + 2..];
    }
    assert NoTheft(rec[1..]) ==> forall i :: 1 <= i < |rec| ==> rec[i] == rec[1..][i - 1];
  }

  /** Both directions: the cursor hands out every queued event at its own recorded position, and
      nothing anywhere else, exactly when no unqueued call can take the next queued event. */
  lemma {:induction false} ServesOwnPositions(rec: seq<QCall>, queue: seq<int>, cursor: nat)
    requires cursor <= |queue| && queue[cursor..] == QueuedNos(rec)
    ensures Serve(Nos(rec), queue, cursor) == OwnPositions(rec, cursor) <==> NoTheft(rec)
  {
    if rec != [] {
      var rest := rec[1..];
      NoTheftCons(rec);
      hide NoTheft;
      assert Nos(rec)[0] == rec[0].no && Nos(rec)[1..] == Nos(rest);
      assert rec[1..] == rec[0 + 1..];
      if rec[0].queued {
        assert queue[cursor] == queue[cursor..][0] == rec[0].no;
        assert queue[cursor + 1..] == queue[cursor..][1..] == QueuedNos(rest);
        ServesOwnPositions(rest, queue, cursor + 1);
        ConsEqual(Some(cursor), Serve(Nos(rest), queue, cursor + 1), Some(cursor), OwnPositions(rest, cursor + 1));
      } else {
        assert QueuedNos(rec) == QueuedNos(rest);
        assert cursor < |queue| ==> queue[cursor] == queue[cursor..][0];
        ServesOwnPositions(rest, queue, cursor);
        if StealsNext(rec, 0) {
          ConsEqual(Some(cursor), Serve(Nos(rest), queue, cursor + 1), None, OwnPositions(rest, cursor));
        } else {
          ConsEqual(None, Serve(Nos(rest), queue, cursor), None, OwnPositions(rest, cursor));
        }
      }
    }
  }

  lemma ConsEqual<T>(x: T, xs: seq<T>, y: T, ys: seq<T>)
    ensures [x] + xs == [y] + ys <==> x == y && xs == ys
  {
    assert ([x] + xs)[0] == x && ([y] + ys)[0] == y;
    assert ([x] + xs)[1..] == xs && ([y] + ys)[1..] == ys;
  }

  // ---------- the recorded side ----------

  /** Whether the loader keeps the event of a recorded call. */
  predicate Wanted(c: Call) {
    c.entry.no == SYS_READ ==> c.data.Some? && 0 < |c.data.value| <= 256
  }

  function AsQCall(c: Call): seq<QCall> {
    if IsReplayable(c.entry.no) then [QCall(c.entry.no, Wanted(c))] else []
  }

  function QCalls(calls: seq<Call>): seq<QCall> {
    if calls == [] then []
    else AsQCall(calls[0]) + QCalls(calls[1..])
  }

  lemma {:induction false} QCallsAppend(calls: seq<Call>, c: Call)
    ensures QCalls(calls + [c]) == QCalls(calls) + AsQCall(c)
  {
    hide Wanted, IsReplayable;
    if calls == [] {
      assert [c][1..] == [];
    } else {
      assert (calls + [c])[1..] == calls[1..] + [c];
      QCallsAppend(calls[1..], c);
    }
  }

  lemma {:induction false} QueuedNosAppend(rec: seq<QCall>, c: QCall)
    ensures QueuedNos(rec + [c]) == QueuedNos(rec) + if c.queued then [c.no] else []
  {
    if rec == [] {
      assert [c][1..] == [];
    } else {
      var r, rest := rec + [c], rec[1..];
      assert r[0] == rec[0] && r[1..] == rest + [c];
      QueuedNosAppend(rest, c);
      assert QueuedNos(r) == (if rec[0].queued then [rec[0].no] else []) + QueuedNos(rest + [c]);
    }
  }

  function QueueNos(queue: seq<ReplayEvent>): (r: seq<int>)
    ensures |r| == |queue| && forall i :: 0 <= i < |r| ==> r[i] == queue[i].no
  {
    seq(|queue|, i requires 0 <= i < |queue| => queue[i].no)
  }

  lemma EventOfCall(e: Event, c: Call, file: seq<byte>)
    requires Tells(e, c, file)
    ensures QueueEntry(e).Some? <==> IsReplayable(c.entry.no) && Wanted(c)
    ensures QueueEntry(e).Some? ==> QueueEntry(e).value.no == c.entry.no
  {
    hide SyscallName, Hash.HexDigest, ReadPayload;
  }

  lemma {:induction false} QueueOfCalls(events: seq<Event>, calls: seq<Call>, file: seq<byte>)
    requires TellsAll(events, calls, file)
    ensures QueueNos(QueueOfEvents(events)) == QueuedNos(QCalls(calls))
  {
    hide Tells, QueueEntry, Wanted, IsReplayable, QueuedNos, QCalls;
    if events == [] {
      NothingQueued();
    } else {
      var p, e, q, c := events[..|events| - 1], events[|events| - 1], calls[..|calls| - 1], calls[|calls| - 1];
      QueueOfCalls(p, q, file);
      EventOfCall(e, c, file);
      QCallsAppend(q, c);
      assert calls == q + [c];
      var before := QueueOfEvents(p);
      if IsReplayable(c.entry.no) {
        QueuedNosAppend(QCalls(q), QCall(c.entry.no, Wanted(c)));
      } else {
        assert QCalls(q) + [] == QCalls(q);
      }
      if QueueEntry(e).None? {
        assert before + [] == before;
      } else {
        assert QueueNos(before + [QueueEntry(e).value]) == QueueNos(before) + [c.entry.no];
      }
    }
  }

  lemma NothingQueued()
    ensures QueuedNos(QCalls([])) == []
  {
  }

  lemma {:induction false} QueueOfSyscallEvents(events: seq<Event>)
    ensures QueueOfEvents(events) == QueueOfEvents(SyscallEvents(events))
  {
    hide QueueEntry, QueueOfEvents, SyscallEvents;
    if events == [] {
      NoEvents();
    } else {
      var p, e := events[..|events| - 1], events[|events| - 1];
      assert events == p + [e];
      QueueOfSyscallEvents(p);
      QueueOfEventsAppend(p, e);
      SyscallEventsAppend(p, e);
      if e.Syscall? {
        QueueOfEventsAppend(SyscallEvents(p), e);
      } else {
        ProcessNotQueued(e);
      }
    }
  }

  lemma NoEvents()
    ensures SyscallEvents([]) == [] && QueueOfEvents([]) == []
  {
  }

  lemma ProcessNotQueued(e: Event)
    requires e.Process?
    ensures QueueEntry(e) == None
  {
  }

  // ---------- the live side ----------

  function ReplayableLives(lives: seq<LiveCall>): seq<LiveCall> {
    if lives == [] then []
    else (if IsReplayable(lives[0].no) then [lives[0]] else []) + ReplayableLives(lives[1..])
  }

  function LiveNos(lives: seq<LiveCall>): (r: seq<int>)
    ensures |r| == |lives|
  {
    if lives == [] then [] else [lives[0].no] + LiveNos(lives[1..])
  }

  /** The queued event each call received. */
  function ServedAt(lives: seq<LiveCall>): (r: seq<Option<nat>>)
    ensures |r| == |lives|
  {
    if lives == [] then [] else [if lives[0].served then Some(lives[0].cursor) else None] + ServedAt(lives[1..])
  }

  lemma ExitServes(s: RState, t: Tick)
    requires Following(s) && ExitOf(s, t).Some?
    ensures var c := ExitOf(s, t).value;
            && c.cursor == s.cursor
            && (c.served <==> IsReplayable(c.no) && s.cursor < |s.queue| && s.queue[s.cursor].no == c.no)
  {
    hide Chained, PayloadsNonempty, Intact;
  }

  lemma ReplayableCons(l: LiveCall, rest: seq<LiveCall>)
    ensures ReplayableLives([l] + rest) == (if IsReplayable(l.no) then [l] else []) + ReplayableLives(rest)
  {
    hide IsReplayable;
    assert ([l] + rest)[1..] == rest;
  }

  lemma ServeCons(l: LiveCall, rest: seq<LiveCall>, queue: seq<int>, cursor: nat)
    requires l.served <==> cursor < |queue| && queue[cursor] == l.no
    requires l.cursor == cursor
    requires ServedAt(rest) == Serve(LiveNos(rest), queue, if l.served then cursor + 1 else cursor)
    ensures ServedAt([l] + rest) == Serve(LiveNos([l] + rest), queue, cursor)
  {
    var more := [l] + rest;
    assert more[1..] == rest;
    assert LiveNos(more)[1..] == LiveNos(rest);
  }

  /** The machine's cursor is the abstract one. */
  lemma {:induction false} LivesServe(s: RState, ticks: seq<Tick>)
    requires Following(s)
    ensures var lives := ReplayableLives(Lives(s, ticks));
            ServedAt(lives) == Serve(LiveNos(lives), QueueNos(s.queue), s.cursor)
    decreases |ticks|
  {
    hide Following, RStep, Strayed, Seen, Expected, IsReplayable, ExitOf, ReplayableLives, ServedAt, LiveNos, Serve;
    if ticks == [] {
      NothingServed(QueueNos(s.queue), s.cursor);
    } else if s.done {
      LivesDone(s, ticks);
      NothingServed(QueueNos(s.queue), s.cursor);
    } else {
      var v, c := RStep(s, ticks[0]), ExitOf(s, ticks[0]);
      StepFollows(s, ticks[0]);
      LivesServe(v, ticks[1..]);
      var rest := Lives(v, ticks[1..]);
      match c
      case None =>
        assert [] + rest == rest;
      case Some(l) =>
        ExitServes(s, ticks[0]);
        ReplayableCons(l, rest);
        if IsReplayable(l.no) {
          ServeCons(l, ReplayableLives(rest), QueueNos(s.queue), s.cursor);
        } else {
          assert [] + ReplayableLives(rest) == ReplayableLives(rest);
        }
    }
  }

  lemma NothingServed(queue: seq<int>, cursor: nat)
    ensures ReplayableLives([]) == [] && ServedAt([]) == Serve(LiveNos([]), queue, cursor)
  {
  }

  /** The queue of a recording holds the numbers of its wanted calls. */
  lemma RecordedQueueNos(s: State, calls: seq<Call>)
    requires Sound(s, calls)
    ensures QueueNos(QueueOfEvents(OwnEvents(s.w.lines))) == QueuedNos(QCalls(calls))
  {
    hide Chained, Tiled, TellsAll, QueueOfEvents, QCalls, QueuedNos, OwnEvents;
    QueueOfSyscallEvents(OwnEvents(s.w.lines));
    QueueOfCalls(SyscallEvents(OwnEvents(s.w.lines)), calls, s.w.payload);
  }

  /** Cursor alignment, both directions, for any recording and any live run whose completed
      replayable calls have the recorded numbers: every queued event is injected at its own recorded
      position and nowhere else, exactly when no unqueued recorded call has the number of the next
      queued event. */
  lemma CursorAlignment(runId: string, pid: int, now: nat, target: string, ticks: seq<Tick>,
                        runId2: string, pid2: int, now2: nat, target2: string, live: seq<Tick>)
    requires Within(runId, pid, now, target, ticks)
    ensures var rec := Run(Start(runId, pid, now, target), ticks);
            var begin := Begin(runId2, pid2, now2, target2, QueueOfText(FileText(rec.w.lines)), rec.w.payload);
            var recorded, lives := QCalls(CallsOf(ticks, None)), ReplayableLives(Lives(begin, live));
            LiveNos(lives) == Nos(recorded) ==>
              (ServedAt(lives) == OwnPositions(recorded, 0) <==> NoTheft(recorded))
  {
    hide Within, Run, Start, Begin, FileText, QueueOfText, QueueOfEvents, OwnEvents, CallsOf, Sound, Intact;
    hide Following, OnTrack, Lives, ReplayableLives, LiveNos, ServedAt, QCalls, NoTheft, QueuedNos, Nos;
    hide PayloadsNonempty;
    var rec := Run(Start(runId, pid, now, target), ticks);
    var calls := CallsOf(ticks, None);
    LoadOfRecording(runId, pid, now, target, ticks);
    RecordingIsFaithful(runId, pid, now, target, ticks);
    SoundIntact(rec, calls);
    RecordedQueueNos(rec, calls);
    var queue := QueueOfEvents(OwnEvents(rec.w.lines));
    var begin := Begin(runId2, pid2, now2, target2, queue, rec.w.payload);
    BeginOnTrack(runId2, pid2, now2, target2, queue, rec.w.payload);
    BeginCursor(runId2, pid2, now2, target2, queue, rec.w.payload);
    LivesServe(begin, live);
    assert QueueNos(queue)[0..] == QueueNos(queue);
    ServesOwnPositions(QCalls(calls), QueueNos(queue), 0);
  }

  lemma BeginCursor(runId: string, pid: int, now: nat, target: string, queue: seq<ReplayEvent>, store: seq<byte>)
    ensures Begin(runId, pid, now, target, queue, store).cursor == 0
  {
    hide EmitProcess;
  }

  /** Only reads are left out of the queue, so a theft is always one read taking another's event. */
  lemma {:induction false} OnlyReadsUnqueued(calls: seq<Call>)
    ensures forall i :: 0 <= i < |QCalls(calls)| && !QCalls(calls)[i].queued ==> QCalls(calls)[i].no == SYS_READ
  {
    if calls != [] {
      hide IsReplayable;
      OnlyReadsUnqueued(calls[1..]);
    }
  }
}
