/** analyzer/rule_analyzer.py: which causes are proposed for a failed verification, in what order. */
module Analyzer {
  import opened CText
  import opened Verifier

  datatype Rule = Pass | Output | Exit | Sync | HighLevel | InputOutput | Deadlock | SyscallResult | Generic

  datatype Candidate = Candidate(rule: Rule, score: real)

  predicate IsInput(e: JsonEvent) {
    e.name in {Some("read"), Some("getrandom"), Some("clock_gettime"), Some("gettimeofday")}
  }

  predicate IsSync(e: JsonEvent) { e.etype == Some("SYNC") }

  predicate MentionsMutex(e: JsonEvent) { FindAfter(OrElse(e.name, ""), "mutex").Some? }

  predicate Near(e: JsonEvent, seqNo: int) { -10 <= OrElse(e.seqNo, 0) - seqNo <= 10 }

  function NearOnes(events: seq<JsonEvent>, seqNo: int): (r: seq<JsonEvent>)
    ensures forall e :: e in r <==> e in events && Near(e, seqNo)
  {
    if events == [] then []
    else
      assert events == [events[0]] + events[1..];
      (if Near(events[0], seqNo) then [events[0]] else []) + NearOnes(events[1..], seqNo)
  }

  /** Python's events[-20:] when the mismatch names no event of this trace. */
  function Window(events: seq<JsonEvent>, seqNo: Option<int>): seq<JsonEvent> {
    match seqNo
    case None => if |events| <= 20 then events else events[|events| - 20..]
    case Some(n) => NearOnes(events, n)
  }

  /** The last twenty, or all there are. */
  lemma WindowAtEnd(events: seq<JsonEvent>)
    ensures var w := Window(events, None);
            |w| == (if |events| < 20 then |events| else 20) && events == events[..|events| - |w|] + w
  {
  }

  /** Ten numbers to either side; an event without a number counts as number 0. */
  lemma WindowExactly(events: seq<JsonEvent>, n: int, e: JsonEvent)
    ensures e in Window(events, Some(n)) <==>
              e in events && var k := if e.seqNo.Some? then e.seqNo.value else 0; n - 10 <= k <= n + 10
  {
  }

  function Around(original: seq<JsonEvent>, replay: seq<JsonEvent>, m: Mismatch): seq<JsonEvent> {
    Window(original, m.originalSeq) + Window(replay, m.replaySeq)
  }

  /** Python's s[:k], which counts a negative k from the end. */
  function UpTo<T>(s: seq<T>, k: int): (r: seq<T>)
    ensures r <= s && (k >= 0 ==> |r| <= k) && (k >= 1 && s != [] ==> r != [])
    ensures |r| == if k > |s| then |s| else if k >= 0 then k else if |s| + k > 0 then |s| + k else 0
  {
    if k >= |s| then s else if k >= 0 then s[..k] else if -k >= |s| then [] else s[..|s| + k]
  }

  /** Each trace's window holds the event that trace differs at. */
  lemma WindowsShowMismatch(original: seq<JsonEvent>, replay: seq<JsonEvent>, i: nat)
    requires FirstMismatch(original, replay).Some? && FirstMismatch(original, replay).value.index == Some(i)
    ensures var m := FirstMismatch(original, replay).value;
            && (i < |Checked(original)| && Checked(original)[i].seqNo.Some? ==>
                 Checked(original)[i] in Window(original, m.originalSeq)
                   && Checked(original)[i] in Around(original, replay, m))
            && (i < |Checked(replay)| && Checked(replay)[i].seqNo.Some? ==>
                 Checked(replay)[i] in Window(replay, m.replaySeq) && Checked(replay)[i] in Around(original, replay, m))
  {
    hide Checked, ComparableEvent, FirstDifference;
    CheckedIsPart(original);
    CheckedIsPart(replay);
    if i < |Checked(original)| {
      assert Checked(original)[i] in Checked(original);
    }
    if i < |Checked(replay)| {
      assert Checked(replay)[i] in Checked(replay);
    }
  }

  predicate AnySync(events: seq<JsonEvent>) { exists e :: e in events && IsSync(e) }

  predicate AnyInput(events: seq<JsonEvent>) { exists e :: e in events && IsInput(e) }

  predicate AnyMutex(events: seq<JsonEvent>) { exists e :: e in events && MentionsMutex(e) }

  // ---------- the ranking, said without saying how it is built ----------

  /** The rules that apply to a failure without a mismatch, with their scores. */
  predicate HighLevelRule(c: Candidate, stdoutDiffers: bool, exitDiffers: bool, sync: bool) {
    || (c == Candidate(Output, 0.92) && stdoutDiffers)
    || (c == Candidate(Exit, 0.86) && exitDiffers)
    || (c == Candidate(Sync, 0.72) && sync)
    || (c == Candidate(HighLevel, 0.5) && !stdoutDiffers && !exitDiffers && !sync)
  }

  /** The rules that apply to a mismatch, given what the events around it hold. */
  predicate MismatchRule(c: Candidate, input: bool, sync: bool, stdoutDiffers: bool, deadlock: bool,
                         exitDiffers: bool) {
    || (c == Candidate(InputOutput, 0.95) && input)
    || (c == Candidate(Sync, 0.88) && sync)
    || (c == Candidate(Output, 0.82) && stdoutDiffers)
    || (c == Candidate(Deadlock, 0.7) && deadlock)
    || (c == Candidate(SyscallResult, 0.65) && exitDiffers)
    || (c == Candidate(Generic, 0.4) && !input && !sync && !stdoutDiffers && !deadlock && !exitDiffers)
  }

  predicate Applies(c: Candidate, original: seq<JsonEvent>, replay: seq<JsonEvent>, r: Report) {
    if r.firstMismatch.None? && r.pass then c == Candidate(Pass, 1.0)
    else if r.firstMismatch.None? then
      HighLevelRule(c, !r.checks.stdoutHash, !r.checks.exitCode, AnySync(original + replay))
    else
      var near := Around(original, replay, r.firstMismatch.value);
      MismatchRule(c, AnyInput(near), AnySync(near), !r.checks.stdoutHash,
                   AnyMutex(near) && !r.checks.eventSequence, !r.checks.exitCode)
  }

  predicate Descending(s: seq<Candidate>) { forall i, j :: 0 <= i < j < |s| ==> s[i].score > s[j].score }

  /** All rules that apply, each once, best first. */
  ghost predicate IsRanking(s: seq<Candidate>, original: seq<JsonEvent>, replay: seq<JsonEvent>, r: Report) {
    && s != [] && Descending(s)
    && forall c :: c in s <==> Applies(c, original, replay, r)
  }

  lemma DescendingTail(s: seq<Candidate>)
    requires s != [] && Descending(s)
    ensures Descending(s[1..]) && s[0] !in s[1..] && forall c :: c in s[1..] ==> s[0].score > c.score
  {
  }

  lemma {:induction false} DescendingUnique(s: seq<Candidate>, t: seq<Candidate>)
    requires Descending(s) && Descending(t) && forall c :: c in s <==> c in t
    ensures s == t
  {
    assert (s != [] ==> s[0] in s) && (t != [] ==> t[0] in t);
    if s == [] {
      assert t == [];
    } else {
      assert t != [];
      DescendingTail(s);
      DescendingTail(t);
      assert s == [s[0]] + s[1..] && t == [t[0]] + t[1..];
      assert s[0] == t[0];
      assert forall c :: c in s[1..] <==> c in s && c != s[0];
      assert forall c :: c in t[1..] <==> c in t && c != t[0];
      DescendingUnique(s[1..], t[1..]);
    }
  }

  /** There is one ranking. */
  lemma RankingUnique(s: seq<Candidate>, t: seq<Candidate>, original: seq<JsonEvent>, replay: seq<JsonEvent>, r: Report)
    requires IsRanking(s, original, replay, r) && IsRanking(t, original, replay, r)
    ensures s == t
  {
    hide Applies, Descending;
    DescendingUnique(s, t);
  }

  /** A mismatch at which either trace has a numbered system call puts input first. */
  lemma InputFirst(original: seq<JsonEvent>, replay: seq<JsonEvent>, r: Report, all: seq<Candidate>, i: nat,
      e: JsonEvent)
    requires r.firstMismatch == FirstMismatch(original, replay) && r.firstMismatch.Some?
    requires r.firstMismatch.value.index == Some(i) && IsRanking(all, original, replay, r)
    requires (i < |Checked(original)| && e == Checked(original)[i]) || (i < |Checked(replay)|
               && e == Checked(replay)[i])
    requires e.etype == Some("SYSCALL") && e.seqNo.Some?
    ensures all[0] == Candidate(InputOutput, 0.95)
  {
    hide Checked, Around, Window, FirstMismatch, AnySync, AnyMutex;
    WindowsShowMismatch(original, replay, i);
    CheckedIsPart(original);
    CheckedIsPart(replay);
    assert e in Checked(original) || e in Checked(replay);
    assert "SYSCALL" != "DRIFT" by { assert "SYSCALL"[0] != "DRIFT"[0]; }
    assert IsInput(e);
    assert Applies(Candidate(InputOutput, 0.95), original, replay, r);
    var k :| 0 <= k < |all| && all[k] == Candidate(InputOutput, 0.95);
    if k > 0 {
      assert all[0] in all;
      assert all[0].score > 0.95;
    }
  }

  // ---------- sorted(key=score, reverse=True) ----------

  function Insert(c: Candidate, s: seq<Candidate>): seq<Candidate> {
    if s == [] || c.score >= s[0].score then [c] + s else [s[0]] + Insert(c, s[1..])
  }

  function SortByScore(s: seq<Candidate>): seq<Candidate> {
    if s == [] then [] else Insert(s[0], SortByScore(s[1..]))
  }

  /** The candidates are collected best first already. */
  lemma {:induction false} SortIdle(s: seq<Candidate>)
    requires Descending(s)
    ensures SortByScore(s) == s
  {
    if s != [] {
      SortIdle(s[1..]);
      assert s == [s[0]] + s[1..];
      assert s[1..] != [] ==> s[1..][0] == s[1];
    }
  }

  predicate NonIncreasing(s: seq<Candidate>) { forall i, j :: 0 <= i < j < |s| ==> s[i].score >= s[j].score }

  /** The candidates of one score, in order. */
  function WithScore(s: seq<Candidate>, score: real): seq<Candidate> {
    if s == [] then [] else (if s[0].score == score then [s[0]] else []) + WithScore(s[1..], score)
  }

  lemma {:induction false} InsertKeepsOrder(c: Candidate, s: seq<Candidate>)
    requires NonIncreasing(s)
    ensures NonIncreasing(Insert(c, s)) && forall d :: d in Insert(c, s) ==> d == c || d in s
  {
    if s != [] && c.score < s[0].score {
      var t := s[1..];
      InsertKeepsOrder(c, t);
      assert Insert(c, s) == [s[0]] + Insert(c, t);
      assert forall d :: d in Insert(c, t) ==> d == c || d in s;
      assert forall d :: d in Insert(c, t) ==> d.score <= s[0].score;
      var r := Insert(c, t);
      assert forall i :: 0 <= i < |r| ==> r[i] in r;
    }
  }

  lemma {:induction false} InsertStable(c: Candidate, s: seq<Candidate>, score: real)
    requires NonIncreasing(s)
    ensures WithScore(Insert(c, s), score) == (if c.score == score then [c] else []) + WithScore(s, score)
  {
    if s == [] || c.score >= s[0].score {
      assert Insert(c, s)[1..] == s;
    } else {
      var t := s[1..];
      assert NonIncreasing(t);
      InsertStable(c, t, score);
      var r := Insert(c, s);
      assert r == [s[0]] + Insert(c, t);
      assert r[0] == s[0] && r[1..] == Insert(c, t);
      hide Insert, NonIncreasing;
      var x := if c.score == score then [c] else [];
      if s[0].score == score {
        assert x == [];
        assert [] + WithScore(t, score) == WithScore(t, score);
        assert [] + WithScore(s, score) == WithScore(s, score);
      } else {
        assert WithScore(s, score) == WithScore(t, score);
      }
    }
  }

  /** The sort puts higher scores first and leaves candidates of one score in the order they were in, as Python's
      does with reverse=True; none is lost or added. */
  lemma {:induction false} SortStable(s: seq<Candidate>, score: real)
    ensures NonIncreasing(SortByScore(s))
    ensures WithScore(SortByScore(s), score) == WithScore(s, score)
  {
    hide Insert;
    if s != [] {
      SortStable(s[1..], score);
      InsertKeepsOrder(s[0], SortByScore(s[1..]));
      InsertStable(s[0], SortByScore(s[1..]), score);
    }
  }

  // ---------- score_candidates ----------

  ghost predicate AllAbove(s: seq<Candidate>, score: real) { forall c :: c in s ==> c.score > score }

  /** Appends the candidate if its rule applies; it must score below those already there. */
  method AddIf(applies: bool, c: Candidate, s: seq<Candidate>) returns (r: seq<Candidate>)
    requires Descending(s) && AllAbove(s, c.score)
    ensures Descending(r) && forall d :: d in r <==> d in s || (applies && d == c)
  {
    r := s;
    if applies {
      r := r + [c];
    }
  }

  lemma EmptyHasNone(s: seq<Candidate>)
    ensures s == [] <==> forall c :: c !in s
  {
    assert s != [] ==> s[0] in s;
  }

  method RankHighLevel(stdoutDiffers: bool, exitDiffers: bool, sync: bool) returns (candidates: seq<Candidate>)
    ensures candidates != [] && Descending(candidates)
    ensures forall c :: c in candidates <==> HighLevelRule(c, stdoutDiffers, exitDiffers, sync)
  {
    candidates := AddIf(stdoutDiffers, Candidate(Output, 0.92), []);
    hide Descending;
    candidates := AddIf(exitDiffers, Candidate(Exit, 0.86), candidates);
    candidates := AddIf(sync, Candidate(Sync, 0.72), candidates);
    EmptyHasNone(candidates);
    candidates := AddIf(candidates == [], Candidate(HighLevel, 0.5), candidates);
    EmptyHasNone(candidates);
  }

  method RankMismatch(input: bool, sync: bool, stdoutDiffers: bool, deadlock: bool, exitDiffers: bool)
    returns (candidates: seq<Candidate>)
    ensures candidates != [] && Descending(candidates)
    ensures forall c :: c in candidates <==> MismatchRule(c, input, sync, stdoutDiffers, deadlock, exitDiffers)
  {
    candidates := AddIf(input, Candidate(InputOutput, 0.95), []);
    hide Descending;
    candidates := AddIf(sync, Candidate(Sync, 0.88), candidates);
    candidates := AddIf(stdoutDiffers, Candidate(Output, 0.82), candidates);
    candidates := AddIf(deadlock, Candidate(Deadlock, 0.7), candidates);
    candidates := AddIf(exitDiffers, Candidate(SyscallResult, 0.65), candidates);
    EmptyHasNone(candidates);
    candidates := AddIf(candidates == [], Candidate(Generic, 0.4), candidates);
    EmptyHasNone(candidates);
    SortIdle(candidates);
    candidates := SortByScore(candidates);
  }

  method ScoreCandidates(original: seq<JsonEvent>, replay: seq<JsonEvent>, r: Report, topK: int)
    returns (ranked: seq<Candidate>)
    ensures exists all :: IsRanking(all, original, replay, r) && ranked == UpTo(all, topK)
    ensures topK >= 1 ==> 1 <= |ranked| <= topK && Descending(ranked)
  {
    hide AnySync, AnyInput, AnyMutex, Around, Descending, HighLevelRule, MismatchRule;
    var all: seq<Candidate>;
    if r.pass && r.firstMismatch.None? {
      all := [Candidate(Pass, 1.0)];
      PassRanking(original, replay, r);
    } else if !r.pass && r.firstMismatch.None? {
      all := RankHighLevel(!r.checks.stdoutHash, !r.checks.exitCode, AnySync(original + replay));
    } else {
      var combined := Around(original, replay, r.firstMismatch.value);
      all := RankMismatch(AnyInput(combined), AnySync(combined), !r.checks.stdoutHash,
                          AnyMutex(combined) && !r.checks.eventSequence, !r.checks.exitCode);
    }
    assert IsRanking(all, original, replay, r);
    ranked := UpTo(all, topK);
    DescendingPrefix(all, ranked);
  }

  lemma DescendingPrefix(s: seq<Candidate>, p: seq<Candidate>)
    requires Descending(s) && p <= s
    ensures Descending(p)
  {
  }

  lemma PassAlone(original: seq<JsonEvent>, replay: seq<JsonEvent>, r: Report)
    requires r.pass && r.firstMismatch.None?
    ensures forall c :: Applies(c, original, replay, r) <==> c == Candidate(Pass, 1.0)
  {
  }

  /** verify, then analyze: PASS is the answer exactly when the traces agree, and then it is the only
      one.  The analyzer never sees a mismatch that passed. */
  method VerifyAndAnalyze(original: seq<JsonEvent>, originalResult: RunResult, replay: seq<JsonEvent>,
                          replayResult: RunResult, topK: int) returns (r: Report, ranked: seq<Candidate>)
    ensures !(r.pass && r.firstMismatch.Some?)
    ensures r.pass <==> originalResult == replayResult && Drifts(replay) == []
                        && Comparables(Checked(original)) == Comparables(Checked(replay))
    ensures exists all :: IsRanking(all, original, replay, r) && ranked == UpTo(all, topK)
    ensures r.pass ==> ranked == UpTo([Candidate(Pass, 1.0)], topK)
    ensures !r.pass ==> forall c :: c in ranked ==> c.rule != Pass
    ensures topK >= 1 ==> 1 <= |ranked| <= topK && Descending(ranked)
  {
    hide Checked, Drifts, FirstMismatch, Descending;
    r := Verify(original, originalResult, replay, replayResult);
    ranked := ScoreCandidates(original, replay, r, topK);
    ghost var all :| IsRanking(all, original, replay, r) && ranked == UpTo(all, topK);
    if r.pass {
      PassRanking(original, replay, r);
      RankingUnique(all, [Candidate(Pass, 1.0)], original, replay, r);
    } else {
      assert forall c :: c in ranked ==> c in all;
    }
  }

  lemma PassRanking(original: seq<JsonEvent>, replay: seq<JsonEvent>, r: Report)
    requires r.pass && r.firstMismatch.None?
    ensures IsRanking([Candidate(Pass, 1.0)], original, replay, r)
  {
    PassAlone(original, replay, r);
  }
}
