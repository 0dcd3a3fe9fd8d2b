/** tests/programs/race_counter: two workers increment a shared counter, each by a read and a later
    write, with any interleaving in between. */
module RaceCounter {
  datatype Thread = A | B

  /** A worker: rounds done, and what it read if it has read but not yet written. */
  datatype Worker = Ready(done: nat) | HasRead(done: nat, tmp: int)

  datatype State = State(counter: int, a: Worker, b: Worker)

  const START := State(0, Ready(0), Ready(0))

  function Of(s: State, t: Thread): Worker { if t.A? then s.a else s.b }

  function Set(s: State, t: Thread, w: Worker): State { if t.A? then s.(a := w) else s.(b := w) }

  /** The next access of worker t to the counter, if it has one left. */
  function Step(loops: nat, s: State, t: Thread): State {
    match Of(s, t)
    case Ready(done) => if done < loops then Set(s, t, HasRead(done, s.counter)) else s
    case HasRead(done, tmp) => Set(s, t, Ready(done + 1)).(counter := tmp + 1)
  }

  /** The order in which the scheduler lets the workers access the counter. */
  function Run(loops: nat, s: State, schedule: seq<Thread>): State
    decreases |schedule|
  {
    if schedule == [] then s else Run(loops, Step(loops, s, schedule[0]), schedule[1..])
  }

  predicate Finished(loops: nat, s: State) { s.a == Ready(loops) && s.b == Ready(loops) }

  // ---------- bounds in every interleaving ----------

  predicate WorkerInv(s: State, w: Worker) {
    w.HasRead? ==> 0 <= w.tmp <= s.a.done + s.b.done && (w.done >= 1 ==> w.tmp >= 1)
  }

  predicate Inv(s: State) {
    && 0 <= s.counter <= s.a.done + s.b.done
    && (s.a.done >= 1 || s.b.done >= 1 ==> s.counter >= 1)
    && (s.a.done >= 2 && s.b.done >= 2 ==> s.counter >= 2)
    && WorkerInv(s, s.a) && WorkerInv(s, s.b)
  }

  lemma {:induction false} RunKeepsInv(loops: nat, s: State, schedule: seq<Thread>)
    requires Inv(s)
    ensures Inv(Run(loops, s, schedule))
    decreases |schedule|
  {
    if schedule != [] {
      RunKeepsInv(loops, Step(loops, s, schedule[0]), schedule[1..]);
    }
  }

  // ---------- schedules that reach every value in between ----------

  function Alone(t: Thread, accesses: nat): (r: seq<Thread>)
    ensures |r| == accesses
  {
    if accesses == 0 then [] else [t] + Alone(t, accesses - 1)
  }

  lemma {:induction false} RunConcat(loops: nat, s: State, x: seq<Thread>, y: seq<Thread>)
    ensures Run(loops, s, x + y) == Run(loops, Run(loops, s, x), y)
    decreases |x|
  {
    if x == [] {
      assert x + y == y;
    } else {
      assert (x + y)[1..] == x[1..] + y;
      RunConcat(loops, Step(loops, s, x[0]), x[1..], y);
    }
  }

  /** n undisturbed rounds add n. */
  lemma {:induction false} AloneAdds(loops: nat, s: State, t: Thread, n: nat)
    requires Of(s, t).Ready? && Of(s, t).done + n <= loops
    ensures Run(loops, s, Alone(t, 2 * n)) == Set(s, t, Ready(Of(s, t).done + n)).(counter := s.counter + n)
    decreases n
  {
    if n > 0 {
      var r := Alone(t, 2 * n);
      assert r[1..] == Alone(t, 2 * n - 1) && r[1..][1..] == Alone(t, 2 * (n - 1));
      var v := Set(s, t, Ready(Of(s, t).done + 1)).(counter := s.counter + 1);
      assert Step(loops, Step(loops, s, t), t) == v;
      AloneAdds(loops, v, t, n - 1);
      assert Set(v, t, Ready(Of(v, t).done + (n - 1))) == Set(s, t, Ready(Of(s, t).done + n)).(counter := v.counter);
    }
  }

  lemma OneStep(loops: nat, s: State, t: Thread)
    ensures Run(loops, s, [t]) == Step(loops, s, t)
  {
  }

  /** A holds the value it first read while B nearly finishes; B's last round is held in turn. */
  function LossySchedule(loops: nat, v: nat): seq<Thread>
    requires 2 <= v <= loops
  {
    [A] + Alone(B, 2 * (loops - 1)) + [A] + Alone(A, 2 * (v - 2)) + [B] + Alone(A, 2 * (loops + 1 - v)) + [B]
  }

  lemma LossyReaches(loops: nat, v: nat)
    requires 2 <= v <= loops
    ensures Run(loops, START, LossySchedule(loops, v)) == State(v, Ready(loops), Ready(loops))
  {
    hide Run, Alone;
    var x1 := [A];
    var x2 := x1 + Alone(B, 2 * (loops - 1));
    var x3 := x2 + [A];
    var x4 := x3 + Alone(A, 2 * (v - 2));
    var x5 := x4 + [B];
    var x6 := x5 + Alone(A, 2 * (loops + 1 - v));
    OneStep(loops, START, A);
    RunConcat(loops, START, x1, Alone(B, 2 * (loops - 1)));
    AloneAdds(loops, Run(loops, START, x1), B, loops - 1);
    RunConcat(loops, START, x2, [A]);
    OneStep(loops, Run(loops, START, x2), A);
    RunConcat(loops, START, x3, Alone(A, 2 * (v - 2)));
    AloneAdds(loops, Run(loops, START, x3), A, v - 2);
    RunConcat(loops, START, x4, [B]);
    OneStep(loops, Run(loops, START, x4), B);
    RunConcat(loops, START, x5, Alone(A, 2 * (loops + 1 - v)));
    AloneAdds(loops, Run(loops, START, x5), A, loops + 1 - v);
    RunConcat(loops, START, x6, [B]);
    OneStep(loops, Run(loops, START, x6), B);
  }

  /** B reads after A's first j rounds and writes after A's last: only A's other rounds are lost. */
  function MildSchedule(loops: nat, j: nat): seq<Thread>
    requires 0 < j <= loops
  {
    Alone(A, 2 * j) + [B] + Alone(A, 2 * (loops - j)) + [B] + Alone(B, 2 * (loops - 1))
  }

  lemma MildReaches(loops: nat, j: nat)
    requires 0 < j <= loops
    ensures Run(loops, START, MildSchedule(loops, j)) == State(loops + j, Ready(loops), Ready(loops))
  {
    hide Run, Alone;
    var x1 := Alone(A, 2 * j);
    var x2 := x1 + [B];
    var x3 := x2 + Alone(A, 2 * (loops - j));
    var x4 := x3 + [B];
    AloneAdds(loops, START, A, j);
    RunConcat(loops, START, x1, [B]);
    OneStep(loops, Run(loops, START, x1), B);
    RunConcat(loops, START, x2, Alone(A, 2 * (loops - j)));
    AloneAdds(loops, Run(loops, START, x2), A, loops - j);
    RunConcat(loops, START, x3, [B]);
    OneStep(loops, Run(loops, START, x3), B);
    RunConcat(loops, START, x4, Alone(B, 2 * (loops - 1)));
    AloneAdds(loops, Run(loops, START, x4), B, loops - 1);
  }

  ghost predicate CanPrint(loops: nat, v: int) {
    exists schedule ::
      Finished(loops, Run(loops, START, schedule)) && Run(loops, START, schedule).counter == v
  }

  /** With few rounds there is no room to lose all but two. */
  lemma FewRounds(loops: nat)
    requires loops <= 1
    ensures Run(loops, START, if loops == 0 then [] else [A, B, A, B]) == State(loops, Ready(loops), Ready(loops))
  {
    if loops == 1 {
      assert Step(loops, Step(loops, START, A), B) == State(0, HasRead(0, 0), HasRead(0, 0));
      RunConcat(loops, START, [A, B], [A, B]);
      assert [A, B, A, B] == [A, B] + [A, B];
      assert [A, B][1..] == [B];
    }
  }

  /** What the racy program can print is exactly the range from 2 (or loops, if less) to 2 * loops. */
  lemma RacyOutcomes(loops: nat, v: int)
    ensures CanPrint(loops, v) <==> (if loops < 2 then loops else 2) <= v <= 2 * loops
  {
    hide Run;
    if CanPrint(loops, v) {
      var schedule :| Finished(loops, Run(loops, START, schedule)) && Run(loops, START, schedule).counter == v;
      RunKeepsInv(loops, START, schedule);
    }
    if 2 <= v <= loops {
      LossyReaches(loops, v);
    } else if loops < v <= 2 * loops {
      MildReaches(loops, v - loops);
    } else if v == loops <= 1 {
      FewRounds(loops);
    }
  }
}
