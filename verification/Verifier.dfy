/** verifier/verifier.py: which events are compared, where two traces first differ, and the verdict. */
module Verifier {
  import opened CText

  /** A payload_ref object with at least one member. */
  datatype JsonPayload = JsonPayload(length: Option<int>, sha256: Option<string>)

  /** A parsed line of events.jsonl; None stands for a missing member. */
  datatype JsonEvent = JsonEvent(etype: Option<string>, name: Option<string>, seqNo: Option<int>,
                                 syscallNo: Option<int>, ret: Option<int>, errno: Option<int>,
                                 payload: Option<JsonPayload>)

  datatype Comparable = Comparable(etype: Option<string>, name: Option<string>, syscallNo: Option<int>,
                                   ret: Option<int>, errno: Option<int>, sha256: Option<string>)

  function ComparableEvent(e: JsonEvent): Comparable {
    Comparable(e.etype, e.name, e.syscallNo, e.ret, e.errno,
               if e.payload.Some? then e.payload.value.sha256 else None)
  }

  predicate IsDrift(e: JsonEvent) { e.etype == Some("DRIFT") }

  predicate IsChecked(e: JsonEvent) {
    if IsDrift(e) then true
    else if e.etype == Some("SYSCALL")
            && e.name in {Some("getrandom"), Some("clock_gettime"), Some("gettimeofday")} then true
    else if e.etype == Some("SYSCALL") && e.name == Some("read") then
      e.payload.Some? && (if e.payload.value.length.Some? then e.payload.value.length.value else 0) <= 256
    else false
  }

  function Checked(events: seq<JsonEvent>): seq<JsonEvent> {
    if events == [] then []
    else
      var e := events[|events| - 1];
      Checked(events[..|events| - 1]) + if IsChecked(e) then [e] else []
  }

  lemma {:induction false} CheckedIsPart(events: seq<JsonEvent>)
    ensures forall e :: e in Checked(events) ==> e in events && IsChecked(e)
  {
    if events != [] {
      CheckedIsPart(events[..|events| - 1]);
    }
  }

  method CheckedEvents(events: seq<JsonEvent>) returns (checked: seq<JsonEvent>)
    ensures checked == Checked(events)
  {
    hide IsChecked;
    checked := [];
    for i := 0 to |events|
      invariant checked == Checked(events[..i])
    {
      assert events[..i + 1][..i] == events[..i];
      if IsChecked(events[i]) {
        checked := checked + [events[i]];
      }
    }
    assert events[..|events|] == events;
  }

  function Comparables(events: seq<JsonEvent>): (r: seq<Comparable>)
    ensures |r| == |events| && forall i :: 0 <= i < |r| ==> r[i] == ComparableEvent(events[i])
  {
    seq(|events|, i requires 0 <= i < |events| => ComparableEvent(events[i]))
  }

  /** i is the first place where a and b differ, one of them running out counting as a difference. */
  predicate FirstDifference(a: seq<Comparable>, b: seq<Comparable>, i: nat) {
    && i <= |a| && i <= |b| && a[..i] == b[..i]
    && (i < |a| && i < |b| ==> a[i] != b[i])
    && !(i == |a| && i == |b|)
  }

  datatype Mismatch = Mismatch(index: Option<nat>, originalSeq: Option<int>, replaySeq: Option<int>,
                               original: Option<Comparable>, replay: Option<Comparable>)

  /** The mismatch record for place i. */
  function MismatchAt(a: seq<JsonEvent>, b: seq<JsonEvent>, i: nat): Mismatch {
    Mismatch(Some(i), if i < |a| then a[i].seqNo else None, if i < |b| then b[i].seqNo else None,
             if i < |a| then Some(ComparableEvent(a[i])) else None,
             if i < |b| then Some(ComparableEvent(b[i])) else None)
  }

  /** What is said of one side of a mismatch at place i: the event compared there, or nothing when the trace
      ran out. */
  predicate Shows(seqNo: Option<int>, shown: Option<Comparable>, checked: seq<JsonEvent>, i: nat) {
    if i < |checked|
    then seqNo == checked[i].seqNo && shown == Some(ComparableEvent(checked[i]))
    else seqNo.None? && shown.None?
  }

  /** What first_sequence_mismatch promises of its result. */
  ghost predicate IsFirstMismatch(a: seq<JsonEvent>, b: seq<JsonEvent>, m: Option<Mismatch>) {
    var aa, bb := Checked(a), Checked(b);
    match m
    case None => Comparables(aa) == Comparables(bb)
    case Some(d) =>
      && d.index.Some? && FirstDifference(Comparables(aa), Comparables(bb), d.index.value)
      && Shows(d.originalSeq, d.original, aa, d.index.value) && Shows(d.replaySeq, d.replay, bb, d.index.value)
  }

  function FirstGap(a: seq<Comparable>, b: seq<Comparable>): (i: nat)
    requires a != b
    ensures FirstDifference(a, b, i)
  {
    if a == [] || b == [] || a[0] != b[0] then 0
    else
      assert a == [a[0]] + a[1..] && b == [b[0]] + b[1..];
      var i := FirstGap(a[1..], b[1..]);
      assert a[..i + 1] == [a[0]] + a[1..][..i] && b[..i + 1] == [b[0]] + b[1..][..i];
      i + 1
  }

  /** What first_sequence_mismatch answers. */
  function FirstMismatch(a: seq<JsonEvent>, b: seq<JsonEvent>): (m: Option<Mismatch>)
    ensures IsFirstMismatch(a, b, m)
  {
    hide Checked, FirstDifference;
    var aa, bb := Checked(a), Checked(b);
    if Comparables(aa) == Comparables(bb) then None
    else Some(MismatchAt(aa, bb, FirstGap(Comparables(aa), Comparables(bb))))
  }

  /** a is the original trace and b the replay. */
  method FirstSequenceMismatch(a: seq<JsonEvent>, b: seq<JsonEvent>) returns (m: Option<Mismatch>)
    ensures m == FirstMismatch(a, b)
    ensures m.None? <==> Comparables(Checked(a)) == Comparables(Checked(b))
    ensures m.Some? ==>
              && m.value.index.Some?
              && FirstDifference(Comparables(Checked(a)), Comparables(Checked(b)), m.value.index.value)
    ensures m.Some? && m.value.index.value < |Checked(a)| ==>
              var e := Checked(a)[m.value.index.value];
              m.value.originalSeq == e.seqNo && m.value.original == Some(ComparableEvent(e))
    ensures m.Some? && m.value.index.value < |Checked(b)| ==>
              var e := Checked(b)[m.value.index.value];
              m.value.replaySeq == e.seqNo && m.value.replay == Some(ComparableEvent(e))
    ensures m.Some? && m.value.index.value >= |Checked(a)| ==> m.value.originalSeq.None? && m.value.original.None?
    ensures m.Some? && m.value.index.value >= |Checked(b)| ==> m.value.replaySeq.None? && m.value.replay.None?
  {
    hide Checked;
    var aa := CheckedEvents(a);
    var bb := CheckedEvents(b);
    var limit := if |aa| < |bb| then |aa| else |bb|;
    var i := 0;
    while i < limit
      invariant i <= limit && Comparables(aa)[..i] == Comparables(bb)[..i]
    {
      if ComparableEvent(aa[i]) != ComparableEvent(bb[i]) {
        m := Some(Mismatch(Some(i), aa[i].seqNo, bb[i].seqNo,
                           Some(ComparableEvent(aa[i])), Some(ComparableEvent(bb[i]))));
        FirstMismatchUnique(a, b, m, FirstMismatch(a, b));
        return;
      }
      i := i + 1;
    }
    m := None;
    if |aa| != |bb| {
      m := Some(Mismatch(Some(limit), if limit < |aa| then aa[limit].seqNo else None,
                         if limit < |bb| then bb[limit].seqNo else None,
                         if limit < |aa| then Some(ComparableEvent(aa[limit])) else None,
                         if limit < |bb| then Some(ComparableEvent(bb[limit])) else None));
    } else {
      assert Comparables(aa) == Comparables(bb);
    }
    FirstMismatchUnique(a, b, m, FirstMismatch(a, b));
  }

  lemma FirstDifferenceNotBefore(a: seq<Comparable>, b: seq<Comparable>, i: nat, j: nat)
    requires FirstDifference(a, b, i) && FirstDifference(a, b, j)
    ensures i >= j
  {
    assert forall k :: 0 <= k < j ==> a[k] == a[..j][k] == b[..j][k] == b[k];
  }

  lemma FirstDifferenceUnique(a: seq<Comparable>, b: seq<Comparable>, i: nat, j: nat)
    requires FirstDifference(a, b, i) && FirstDifference(a, b, j)
    ensures i == j
  {
    FirstDifferenceNotBefore(a, b, i, j);
    FirstDifferenceNotBefore(a, b, j, i);
  }

  lemma FirstDifferenceMeansUnequal(a: seq<Comparable>, b: seq<Comparable>, i: nat)
    requires FirstDifference(a, b, i)
    ensures a != b
  {
  }

  /** The answer is determined by the two traces. */
  lemma FirstMismatchUnique(a: seq<JsonEvent>, b: seq<JsonEvent>, m: Option<Mismatch>, n: Option<Mismatch>)
    requires IsFirstMismatch(a, b, m) && IsFirstMismatch(a, b, n)
    ensures m == n
  {
    hide Checked, FirstDifference;
    var aa, bb := Comparables(Checked(a)), Comparables(Checked(b));
    if m.Some? {
      FirstDifferenceMeansUnequal(aa, bb, m.value.index.value);
    }
    if n.Some? {
      FirstDifferenceMeansUnequal(aa, bb, n.value.index.value);
    }
    if m.Some? && n.Some? {
      FirstDifferenceUnique(aa, bb, m.value.index.value, n.value.index.value);
    }
  }

  // ---------- the verdict ----------

  datatype RunResult = RunResult(exitCode: int, stdoutHash: string, stderrHash: string)

  datatype Checks = Checks(exitCode: bool, stdoutHash: bool, stderrHash: bool, eventSequence: bool)

  datatype Report = Report(pass: bool, checks: Checks, firstMismatch: Option<Mismatch>)

  function Drifts(events: seq<JsonEvent>): seq<JsonEvent> {
    if events == [] then []
    else Drifts(events[..|events| - 1]) + if IsDrift(events[|events| - 1]) then [events[|events| - 1]] else []
  }

  /** What is compared: drift always, a clock or a random answer always, a read that stores a payload of at most
      256 bytes or of no stated length, and nothing else. */
  lemma ComparedExactly(e: JsonEvent)
    ensures e.etype == Some("DRIFT") ==> IsChecked(e)
    ensures e.etype != Some("DRIFT") && e.etype != Some("SYSCALL") ==> !IsChecked(e)
    ensures e.etype == Some("SYSCALL") ==>
              (IsChecked(e) <==>
                || e.name == Some("getrandom") || e.name == Some("clock_gettime") || e.name == Some("gettimeofday")
                || (e.name == Some("read") && e.payload.Some?
                    && (e.payload.value.length.Some? ==> e.payload.value.length.value <= 256)))
  {
    assert "SYSCALL"[0] != "DRIFT"[0] && "read"[0] != "getrandom"[0] && "read"[0] != "clock_gettime"[0];
    assert "read"[0] != "gettimeofday"[0];
  }

  lemma {:induction false} NoDrift(events: seq<JsonEvent>)
    requires forall e :: e in events ==> e.etype != Some("DRIFT")
    ensures Drifts(events) == []
  {
    if events != [] {
      NoDrift(events[..|events| - 1]);
    }
  }

  /** The drift a report points to is the first there is. */
  lemma {:induction false} FirstDrift(front: seq<JsonEvent>, e: JsonEvent, back: seq<JsonEvent>)
    requires e.etype == Some("DRIFT") && forall d :: d in front ==> d.etype != Some("DRIFT")
    ensures Drifts(front + [e] + back) != [] && Drifts(front + [e] + back)[0] == e
  {
    if back == [] {
      var all := front + [e] + back;
      assert all[..|all| - 1] == front && all[|all| - 1] == e;
      NoDrift(front);
    } else {
      var all, n := front + [e] + back, |back| - 1;
      assert all[..|all| - 1] == front + [e] + back[..n] && all[|all| - 1] == back[n];
      FirstDrift(front, e, back[..n]);
    }
  }

  method Verify(original: seq<JsonEvent>, originalResult: RunResult, replay: seq<JsonEvent>, replayResult: RunResult)
    returns (r: Report)
    ensures r.pass <==> originalResult == replayResult && Drifts(replay) == []
                        && Comparables(Checked(original)) == Comparables(Checked(replay))
    ensures r.pass ==> r.firstMismatch.None?
    ensures r.pass <==> r.checks == Checks(true, true, true, true)
    ensures r.checks.eventSequence <==> r.firstMismatch.None?
    ensures r.checks.exitCode == (originalResult.exitCode == replayResult.exitCode)
    ensures r.checks.stdoutHash == (originalResult.stdoutHash == replayResult.stdoutHash)
    ensures r.checks.stderrHash == (originalResult.stderrHash == replayResult.stderrHash)
    ensures r.firstMismatch.Some? && r.firstMismatch.value.index.Some? ==>
              var m, i := r.firstMismatch.value, r.firstMismatch.value.index.value;
              && FirstDifference(Comparables(Checked(original)), Comparables(Checked(replay)), i)
              && (if i < |Checked(original)|
                  then m.originalSeq == Checked(original)[i].seqNo
                       && m.original == Some(ComparableEvent(Checked(original)[i]))
                  else m.originalSeq.None? && m.original.None?)
              && (if i < |Checked(replay)|
                  then m.replaySeq == Checked(replay)[i].seqNo
                       && m.replay == Some(ComparableEvent(Checked(replay)[i]))
                  else m.replaySeq.None? && m.replay.None?)
    ensures r.firstMismatch.Some? && r.firstMismatch.value.index.None? ==>
              && Comparables(Checked(original)) == Comparables(Checked(replay)) && Drifts(replay) != []
              && r.firstMismatch.value.originalSeq.None? && r.firstMismatch.value.original.None?
              && r.firstMismatch.value.replaySeq == Drifts(replay)[0].seqNo
              && r.firstMismatch.value.replay == Some(ComparableEvent(Drifts(replay)[0]))
    ensures r.firstMismatch ==
            if FirstMismatch(original, replay).Some? then FirstMismatch(original, replay)
            else if Drifts(replay) == [] then None
            else Some(Mismatch(None, None, Drifts(replay)[0].seqNo, None, Some(ComparableEvent(Drifts(replay)[0]))))
  {
    hide Checked, FirstDifference, IsDrift, FirstMismatch;
    var firstMismatch := FirstSequenceMismatch(original, replay);
    if firstMismatch.Some? {
      FirstDifferenceMeansUnequal(Comparables(Checked(original)), Comparables(Checked(replay)),
                                  firstMismatch.value.index.value);
    }
    var checks := Checks(originalResult.exitCode == replayResult.exitCode,
                         originalResult.stdoutHash == replayResult.stdoutHash,
                         originalResult.stderrHash == replayResult.stderrHash,
                         firstMismatch.None?);
    var driftEvents := [];
    for i := 0 to |replay|
      invariant driftEvents == Drifts(replay[..i])
    {
      assert replay[..i + 1][..i] == replay[..i];
      if IsDrift(replay[i]) {
        driftEvents := driftEvents + [replay[i]];
      }
    }
    assert replay[..|replay|] == replay;
    if driftEvents != [] {
      checks := checks.(eventSequence := false);
      if firstMismatch.None? {
        firstMismatch := Some(Mismatch(None, None, driftEvents[0].seqNo, None, Some(ComparableEvent(driftEvents[0]))));
      }
    }
    var pass := checks.exitCode && checks.stdoutHash && checks.stderrHash && checks.eventSequence;
    r := Report(pass, checks, firstMismatch);
  }
}
