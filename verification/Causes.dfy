/** The analyzer's answer spelled out: the whole list of causes for a failed verification, from the events of
    the two traces and the checks alone. */
module Causes {
  import opened CText
  import opened Verifier
  import opened Analyzer

  /** The cause, if it applies. */
  function Just(applies: bool, rule: Rule, score: real): seq<Candidate> {
    if applies then [Candidate(rule, score)] else []
  }

  lemma AppendBelow(s: seq<Candidate>, applies: bool, rule: Rule, score: real)
    requires Descending(s) && AllAbove(s, score)
    ensures Descending(s + Just(applies, rule, score))
    ensures forall c :: c in s + Just(applies, rule, score) <==> c in s || (applies && c == Candidate(rule, score))
  {
  }

  /** The text holds the word. */
  ghost predicate Holds(s: string, word: string) { exists i :: 0 <= i <= |s| && word <= s[i..] }

  lemma {:induction false} FoundExactly(s: string, word: string)
    ensures FindAfter(s, word).Some? <==> Holds(s, word)
  {
    assert s[0..] == s;
    if word <= s || s == "" {
      assert word <= s ==> word <= s[0..];
    } else {
      FoundExactly(s[1..], word);
      assert forall i :: 0 <= i <= |s[1..]| ==> s[1..][i..] == s[i + 1..];
      if Holds(s[1..], word) {
        var i :| 0 <= i <= |s[1..]| && word <= s[1..][i..];
        assert word <= s[i + 1..];
      }
      if Holds(s, word) {
        var i :| 0 <= i <= |s| && word <= s[i..];
        assert i != 0 && word <= s[1..][i - 1..];
      }
    }
  }

  ghost predicate NamesMutex(e: JsonEvent) { e.name.Some? && Holds(e.name.value, "mutex") }

  lemma MutexExactly(e: JsonEvent)
    ensures MentionsMutex(e) <==> NamesMutex(e)
  {
    hide FindAfter;
    FoundExactly(OrElse(e.name, ""), "mutex");
    assert e.name.None? ==> !Holds("", "mutex");
    hide Holds;
  }

  // ---------- a failure that no compared event explains ----------

  ghost predicate SyncIn(events: seq<JsonEvent>) { exists e :: e in events && e.etype == Some("SYNC") }

  /** Output, exit code, and any synchronization in either trace, in this order; or the general cause. */
  lemma HighLevelList(original: seq<JsonEvent>, replay: seq<JsonEvent>, r: Report, all: seq<Candidate>)
    requires !r.pass && r.firstMismatch.None? && IsRanking(all, original, replay, r)
    ensures var output, exit, sync := !r.checks.stdoutHash, !r.checks.exitCode, SyncIn(original) || SyncIn(replay);
            all == Just(output, Output, 0.92) + Just(exit, Exit, 0.86) + Just(sync, Sync, 0.72)
                   + Just(!output && !exit && !sync, HighLevel, 0.5)
  {
    var output, exit, sync := !r.checks.stdoutHash, !r.checks.exitCode, SyncIn(original) || SyncIn(replay);
    AppendBelow([], output, Output, 0.92);
    assert [] + Just(output, Output, 0.92) == Just(output, Output, 0.92);
    var a := Just(output, Output, 0.92);
    AppendBelow(a, exit, Exit, 0.86);
    var b := a + Just(exit, Exit, 0.86);
    AppendBelow(b, sync, Sync, 0.72);
    var c := b + Just(sync, Sync, 0.72);
    AppendBelow(c, !output && !exit && !sync, HighLevel, 0.5);
    SyncOfBoth(original, replay);
    hide Descending, AllAbove, Just, AnySync, SyncIn;
    DescendingUnique(all, c + Just(!output && !exit && !sync, HighLevel, 0.5));
  }

  lemma SyncOfBoth(original: seq<JsonEvent>, replay: seq<JsonEvent>)
    ensures AnySync(original + replay) <==> SyncIn(original) || SyncIn(replay)
  {
    if AnySync(original + replay) {
      var e :| e in original + replay && IsSync(e);
      assert e in original || e in replay;
    } else {
      assert forall e :: e in original || e in replay ==> e in original + replay && !IsSync(e);
    }
  }

  // ---------- a mismatch ----------

  /** Near the event a trace differs at: among the last twenty when it ran out, and otherwise numbered within ten
      of it, an event without a number counting as number 0. */
  predicate NearIn(e: JsonEvent, events: seq<JsonEvent>, seqNo: Option<int>) {
    match seqNo
    case None => e in events[if |events| < 20 then 0 else |events| - 20..]
    case Some(n) => e in events && (var k := if e.seqNo.Some? then e.seqNo.value else 0; n - 10 <= k <= n + 10)
  }

  lemma WindowIsNear(e: JsonEvent, events: seq<JsonEvent>, seqNo: Option<int>)
    ensures e in Window(events, seqNo) <==> NearIn(e, events, seqNo)
  {
    if seqNo.Some? {
      WindowExactly(events, seqNo.value, e);
    } else if |events| <= 20 {
      assert events[0..] == events;
    }
  }

  ghost predicate Nearby(e: JsonEvent, original: seq<JsonEvent>, replay: seq<JsonEvent>, m: Mismatch) {
    NearIn(e, original, m.originalSeq) || NearIn(e, replay, m.replaySeq)
  }

  ghost predicate InputNearby(original: seq<JsonEvent>, replay: seq<JsonEvent>, m: Mismatch) {
    exists e :: Nearby(e, original, replay, m)
                && (e.name == Some("read") || e.name == Some("getrandom") || e.name == Some("clock_gettime")
                    || e.name == Some("gettimeofday"))
  }

  ghost predicate SyncNearby(original: seq<JsonEvent>, replay: seq<JsonEvent>, m: Mismatch) {
    exists e :: Nearby(e, original, replay, m) && e.etype == Some("SYNC")
  }

  ghost predicate MutexNearby(original: seq<JsonEvent>, replay: seq<JsonEvent>, m: Mismatch) {
    exists e :: Nearby(e, original, replay, m) && NamesMutex(e)
  }

  lemma AroundIsNearby(original: seq<JsonEvent>, replay: seq<JsonEvent>, m: Mismatch)
    ensures forall e :: e in Around(original, replay, m) <==> Nearby(e, original, replay, m)
  {
    hide Window, NearIn;
    forall e
      ensures e in Around(original, replay, m) <==> Nearby(e, original, replay, m)
    {
      WindowIsNear(e, original, m.originalSeq);
      WindowIsNear(e, replay, m.replaySeq);
    }
  }

  lemma NearbyRules(original: seq<JsonEvent>, replay: seq<JsonEvent>, m: Mismatch)
    ensures var near := Around(original, replay, m);
            && (AnyInput(near) <==> InputNearby(original, replay, m))
            && (AnySync(near) <==> SyncNearby(original, replay, m))
            && (AnyMutex(near) <==> MutexNearby(original, replay, m))
  {
    hide Around, Nearby, MentionsMutex, NamesMutex;
    AroundIsNearby(original, replay, m);
    forall e
      ensures MentionsMutex(e) <==> NamesMutex(e)
    {
      MutexExactly(e);
    }
  }

  /** Input, synchronization, output, mutexes, exit code, in this order; or the generic cause. */
  lemma MismatchList(original: seq<JsonEvent>, replay: seq<JsonEvent>, r: Report, all: seq<Candidate>)
    requires r.firstMismatch.Some? && IsRanking(all, original, replay, r)
    ensures var m := r.firstMismatch.value;
            var input, sync := InputNearby(original, replay, m), SyncNearby(original, replay, m);
            var mutex := MutexNearby(original, replay, m) && !r.checks.eventSequence;
            var output, exit := !r.checks.stdoutHash, !r.checks.exitCode;
            all == Just(input, InputOutput, 0.95) + Just(sync, Sync, 0.88) + Just(output, Output, 0.82)
                   + Just(mutex, Deadlock, 0.7) + Just(exit, SyscallResult, 0.65)
                   + Just(!input && !sync && !output && !mutex && !exit, Generic, 0.4)
  {
    var m := r.firstMismatch.value;
    var input, sync := InputNearby(original, replay, m), SyncNearby(original, replay, m);
    var mutex := MutexNearby(original, replay, m) && !r.checks.eventSequence;
    var output, exit := !r.checks.stdoutHash, !r.checks.exitCode;
    NearbyRules(original, replay, m);
    var ranked := MismatchRanked(input, sync, output, mutex, exit);
    hide Descending, Just, AnySync, AnyInput, AnyMutex, Around, InputNearby, SyncNearby, MutexNearby;
    DescendingUnique(all, ranked);
  }

  lemma MismatchRanked(input: bool, sync: bool, output: bool, mutex: bool, exit: bool) returns (all: seq<Candidate>)
    ensures Descending(all) && forall c :: c in all <==> MismatchRule(c, input, sync, output, mutex, exit)
    ensures all == Just(input, InputOutput, 0.95) + Just(sync, Sync, 0.88) + Just(output, Output, 0.82)
                   + Just(mutex, Deadlock, 0.7) + Just(exit, SyscallResult, 0.65)
                   + Just(!input && !sync && !output && !mutex && !exit, Generic, 0.4)
  {
    AppendBelow([], input, InputOutput, 0.95);
    assert [] + Just(input, InputOutput, 0.95) == Just(input, InputOutput, 0.95);
    hide Descending, Just;
    var a := Just(input, InputOutput, 0.95);
    AppendBelow(a, sync, Sync, 0.88);
    var b := a + Just(sync, Sync, 0.88);
    AppendBelow(b, output, Output, 0.82);
    var c := b + Just(output, Output, 0.82);
    AppendBelow(c, mutex, Deadlock, 0.7);
    var d := c + Just(mutex, Deadlock, 0.7);
    AppendBelow(d, exit, SyscallResult, 0.65);
    var e := d + Just(exit, SyscallResult, 0.65);
    AppendBelow(e, !input && !sync && !output && !mutex && !exit, Generic, 0.4);
    all := e + Just(!input && !sync && !output && !mutex && !exit, Generic, 0.4);
  }
}
