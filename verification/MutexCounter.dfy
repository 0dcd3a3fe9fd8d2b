/** tests/programs/mutex_counter as a client of the hook protocol: two workers, each round a hooked
    lock, an increment made of a read and a write, and a hooked unlock. */
module MutexCounter {
  import opened SyncHook

  const LOCK: MutexId := 0

  /** Where a worker is in its loop body. */
  datatype Place = AtLock | Locking | Loading | Storing(tmp: int) | AtUnlock | Unlocking

  datatype Worker = Worker(done: nat, place: Place)

  datatype Program = Program(hook: State, counter: int, a: Worker, b: Worker)

  predicate IsWorker(t: Tid) { t == 1 || t == 2 }

  function Of(p: Program, t: Tid): Worker { if t == 1 then p.a else p.b }

  function Set(p: Program, t: Tid, w: Worker): Program { if t == 1 then p.(a := w) else p.(b := w) }

  function Other(t: Tid): Tid { if t == 1 then 2 else 1 }

  /** A worker runs its own code, or a step inside a hooked call. */
  datatype Act = Local | Inside(step: Step)

  predicate Can(loops: nat, p: Program, t: Tid, act: Act) {
    && IsWorker(t)
    && (match act
        case Local => PcOf(p.hook, t).Idle? && (Of(p, t).place.AtLock? ==> Of(p, t).done < loops)
        case Inside(step) => (step.TakeNumber? || step.Write? || step.Real?) && Enabled(p.hook, t, step))
  }

  /** One step of worker t.  A call starts the wrapper; Idle again means that it has returned. */
  function After(loops: nat, p: Program, t: Tid, act: Act): Program
    requires Can(loops, p, t, act)
  {
    var w := Of(p, t);
    match act
    case Inside(step) => p.(hook := Next(p.hook, t, step))
    case Local =>
      (match w.place
       case AtLock => Set(p, t, w.(place := Locking)).(hook := Go(p.hook, t, Numbering(Lock(LOCK))))
       case Locking => Set(p, t, w.(place := Loading))
       case Loading => Set(p, t, w.(place := Storing(p.counter)))
       case Storing(tmp) => Set(p, t, w.(place := AtUnlock)).(counter := tmp + 1)
       case AtUnlock => Set(p, t, w.(place := Unlocking)).(hook := Go(p.hook, t, Numbering(Unlock(LOCK))))
       case Unlocking => Set(p, t, Worker(w.done + 1, AtLock)))
  }

  predicate Begun(p: Program) {
    Init(p.hook) && p.counter == 0 && p.a == Worker(0, AtLock) && p.b == Worker(0, AtLock)
  }

  predicate Finished(loops: nat, p: Program) { p.a == Worker(loops, AtLock) && p.b == Worker(loops, AtLock) }

  // ---------- the invariant ----------

  /** Where the wrapper can be, given where the worker is, and whether the worker has the lock. */
  predicate InStep(h: State, t: Tid, place: Place) {
    var pc, has := PcOf(h, t), Owns(h, t, LOCK);
    match place
    case AtLock => pc.Idle? && !has
    case Locking =>
      || ((pc.Numbering? || pc.Writing? || pc.Calling?) && pc.op == Lock(LOCK) && !has)
      || ((pc.NumberingLeave? || pc.WritingLeave?) && pc.op == Lock(LOCK) && pc.ret == 0 && has)
      || (pc.Idle? && has)
    case Loading => pc.Idle? && has
    case Storing(tmp) => pc.Idle? && has
    case AtUnlock => pc.Idle? && has
    case Unlocking =>
      || ((pc.Numbering? || pc.Writing? || pc.Calling?) && pc.op == Unlock(LOCK) && has)
      || ((pc.NumberingLeave? || pc.WritingLeave?) && pc.op == Unlock(LOCK) && !has)
      || (pc.Idle? && !has)
  }

  /** Increments made: the finished rounds, and the one whose unlock is still to come. */
  function Made(w: Worker): nat { w.done + if w.place.AtUnlock? || w.place.Unlocking? then 1 else 0 }

  predicate Inv(p: Program) {
    && InStep(p.hook, 1, p.a.place) && InStep(p.hook, 2, p.b.place)
    && p.counter == Made(p.a) + Made(p.b)
    && (p.a.place.Storing? ==> p.a.place.tmp == p.counter)
    && (p.b.place.Storing? ==> p.b.place.tmp == p.counter)
  }

  /** A worker's step inside a hooked call is none of the other worker's business. */
  lemma InsideFrame(h: State, t: Tid, step: Step, place: Place, u: Tid, other: Place)
    requires t != u && Enabled(h, t, step) && (step.TakeNumber? || step.Write? || step.Real?)
    requires InStep(h, t, place) && InStep(h, u, other)
    ensures InStep(Next(h, t, step), t, place) && InStep(Next(h, t, step), u, other)
  {
  }

  lemma AfterKeepsInv(loops: nat, p: Program, t: Tid, act: Act)
    requires Inv(p) && Can(loops, p, t, act)
    ensures Inv(After(loops, p, t, act))
  {
    if act.Inside? {
      hide Next, Enabled;
      InsideFrame(p.hook, t, act.step, Of(p, t).place, Other(t), Of(p, Other(t)).place);
    }
  }

  /** The calls a worker makes are calls the protocol allows: it unlocks only what it holds. */
  lemma CallsAllowed(loops: nat, p: Program, t: Tid)
    requires Inv(p) && Can(loops, p, t, Local)
    ensures After(loops, p, t, Local).hook == p.hook
         || exists op :: Enabled(p.hook, t, Begin(op)) && After(loops, p, t, Local).hook == Next(p.hook, t, Begin(op))
  {
    if Of(p, t).place.AtLock? {
      assert Enabled(p.hook, t, Begin(Lock(LOCK)));
    } else if Of(p, t).place.AtUnlock? {
      assert Enabled(p.hook, t, Begin(Unlock(LOCK)));
    }
  }

  // ---------- what the log shows of a worker ----------

  /** Lines in the log that say worker t got the lock or gives it up. */
  function Noted(h: State, t: Tid, w: Worker): nat {
    var pc := PcOf(h, t);
    2 * w.done +
    match w.place
    case AtLock => 0
    case Locking => if pc.Idle? then 1 else 0
    case Loading => 1
    case Storing(tmp) => 1
    case AtUnlock => 1
    case Unlocking => if pc.Numbering? || pc.Writing? then 1 else 2
  }

  predicate LogCounts(p: Program) {
    |Restrict(p.hook.log, LOCK)| == Noted(p.hook, 1, p.a) + Noted(p.hook, 2, p.b)
  }

  lemma WriteNotes(h: State, t: Tid, w: Worker)
    requires InStep(h, t, w.place) && Enabled(h, t, Write)
    ensures var v := Next(h, t, Write);
      v.log == h.log + [v.log[|h.log|]]
      && Noted(v, t, w) == Noted(h, t, w) + if Concerns(v.log[|h.log|], LOCK) then 1 else 0
  {
  }

  lemma QuietNotes(loops: nat, p: Program, t: Tid, act: Act)
    requires InStep(p.hook, t, Of(p, t).place) && Can(loops, p, t, act) && act != Inside(Write)
    ensures var q := After(loops, p, t, act);
      q.hook.log == p.hook.log && Noted(q.hook, t, Of(q, t)) == Noted(p.hook, t, Of(p, t))
  {
  }

  lemma OthersNoted(loops: nat, p: Program, t: Tid, act: Act)
    requires Can(loops, p, t, act)
    ensures var q, u := After(loops, p, t, act), Other(t);
      Of(q, u) == Of(p, u) && Noted(q.hook, u, Of(q, u)) == Noted(p.hook, u, Of(p, u))
  {
  }

  lemma AfterKeepsCounts(loops: nat, p: Program, t: Tid, act: Act)
    requires Inv(p) && LogCounts(p) && Can(loops, p, t, act)
    ensures LogCounts(After(loops, p, t, act))
  {
    hide Restrict, Noted, InStep, Next, Enabled, Concerns;
    OthersNoted(loops, p, t, act);
    if act == Inside(Write) {
      WriteNotes(p.hook, t, Of(p, t));
      RestrictAppend(p.hook.log, After(loops, p, t, act).hook.log[|p.hook.log|], LOCK);
    } else {
      QuietNotes(loops, p, t, act);
    }
  }

  // ---------- no deadlock ----------

  predicate RoundsLeft(loops: nat, w: Worker) {
    if w.place.AtLock? then w.done <= loops else w.done < loops
  }

  predicate Live(loops: nat, p: Program) {
    && RoundsLeft(loops, p.a) && RoundsLeft(loops, p.b)
    && (LOCK in p.hook.owner ==> IsWorker(p.hook.owner[LOCK]))
  }

  lemma AfterKeepsLive(loops: nat, p: Program, t: Tid, act: Act)
    requires Inv(p) && Live(loops, p) && Can(loops, p, t, act)
    ensures Live(loops, After(loops, p, t, act))
  {
  }

  predicate CanMove(loops: nat, p: Program, t: Tid) {
    || Can(loops, p, t, Local) || Can(loops, p, t, Inside(TakeNumber))
    || Can(loops, p, t, Inside(Write)) || Can(loops, p, t, Inside(Real))
  }

  /** A worker that cannot move has finished, or waits in the real lock call. */
  lemma WhyStuck(loops: nat, p: Program, t: Tid)
    requires Inv(p) && Live(loops, p) && IsWorker(t) && !CanMove(loops, p, t)
    ensures Of(p, t) == Worker(loops, AtLock) || (LOCK in p.hook.owner && !Owns(p.hook, t, LOCK))
  {
  }

  /** The owner of the lock can always move. */
  lemma OwnerMoves(loops: nat, p: Program, t: Tid)
    requires Inv(p) && Live(loops, p) && IsWorker(t) && Owns(p.hook, t, LOCK)
    ensures CanMove(loops, p, t)
  {
  }

  lemma NeverStuck(loops: nat, p: Program)
    requires Inv(p) && Live(loops, p)
    ensures Finished(loops, p) || CanMove(loops, p, 1) || CanMove(loops, p, 2)
  {
    hide Inv, CanMove;
    if !CanMove(loops, p, 1) && !CanMove(loops, p, 2) {
      WhyStuck(loops, p, 1);
      WhyStuck(loops, p, 2);
      if LOCK in p.hook.owner {
        OwnerMoves(loops, p, p.hook.owner[LOCK]);
      }
    }
  }

  // ---------- runs ----------

  datatype Turn = Turn(tid: Tid, act: Act)

  ghost predicate Runs(loops: nat, p: Program, turns: seq<Turn>, q: Program)
    decreases |turns|
  {
    if turns == [] then q == p
    else
      && Can(loops, p, turns[0].tid, turns[0].act)
      && Runs(loops, After(loops, p, turns[0].tid, turns[0].act), turns[1..], q)
  }

  /** Every run of the program is a run of the protocol. */
  lemma {:induction false} RunReached(loops: nat, p: Program, turns: seq<Turn>, q: Program) returns (moves: seq<Move>)
    requires Inv(p) && LogCounts(p) && Live(loops, p) && Runs(loops, p, turns, q)
    ensures Inv(q) && LogCounts(q) && Live(loops, q) && Reaches(p.hook, moves, q.hook)
    decreases |turns|
  {
    hide Inv, LogCounts, Live, Next, Enabled;
    if turns == [] {
      moves := [];
    } else {
      var t, act := turns[0].tid, turns[0].act;
      AfterKeepsInv(loops, p, t, act);
      AfterKeepsCounts(loops, p, t, act);
      AfterKeepsLive(loops, p, t, act);
      var rest := RunReached(loops, After(loops, p, t, act), turns[1..], q);
      moves := Prepend(loops, p, t, act, rest, q.hook);
    }
  }

  lemma Prepend(loops: nat, p: Program, t: Tid, act: Act, rest: seq<Move>, end: State) returns (moves: seq<Move>)
    requires Inv(p) && Can(loops, p, t, act) && Reaches(After(loops, p, t, act).hook, rest, end)
    ensures Reaches(p.hook, moves, end)
  {
    hide Inv, Next, Enabled;
    if act.Inside? {
      moves := [Move(t, act.step)] + rest;
      assert moves[1..] == rest;
    } else {
      CallsAllowed(loops, p, t);
      if After(loops, p, t, act).hook == p.hook {
        moves := rest;
      } else {
        var op :| Enabled(p.hook, t, Begin(op)) && After(loops, p, t, Local).hook == Next(p.hook, t, Begin(op));
        moves := [Move(t, Begin(op))] + rest;
        assert moves[1..] == rest;
      }
    }
  }

  /** In every interleaving the program ends with 2 * loops, and the log accounts for each increment:
      one acquisition and one release by the same worker, in turn.  Until then some worker can move. */
  lemma MutexOutcome(loops: nat, p: Program, turns: seq<Turn>, q: Program)
    requires Begun(p) && Runs(loops, p, turns, q)
    ensures WellPaired(Restrict(q.hook.log, LOCK), LOCK)
    ensures Finished(loops, q) ==> q.counter == 2 * loops && |Restrict(q.hook.log, LOCK)| == 2 * q.counter
    ensures !Finished(loops, q) ==> CanMove(loops, q, 1) || CanMove(loops, q, 2)
  {
    hide Runs, Reaches, WellPaired, CanMove;
    var moves := RunReached(loops, p, turns, q);
    LogIsSound(p.hook, moves, q.hook, LOCK);
    NeverStuck(loops, q);
  }
}
