/** hooks/sync_hook.c as a concurrent protocol.  Each wrapper logs "enter", makes the real call and
    logs "leave"; a log call first takes a number from the shared counter and then appends its line,
    and any other thread may run between any two of these steps. */
module SyncHook {
  const FIRST_SEQ := 1_000_000_000

  type Tid = nat
  type MutexId = nat

  /** The wrapped calls; Other stands for create, join, signal and broadcast, which touch no mutex. */
  datatype Op = Lock(m: MutexId) | Unlock(m: MutexId) | CondWait(m: MutexId) | Other

  datatype Phase = Enter | Leave

  datatype Record = Record(seqNo: nat, tid: Tid, op: Op, phase: Phase, ret: int)

  /** Where a thread is inside a wrapper: before the counter, between the counter and the write, in
      the real call, blocked in cond_wait, and the same again for the leave line. */
  datatype Pc =
    | Idle
    | Numbering(op: Op)
    | Writing(op: Op, seqNo: nat)
    | Calling(op: Op)
    | Blocked(m: MutexId)
    | NumberingLeave(op: Op, ret: int)
    | WritingLeave(op: Op, ret: int, seqNo: nat)

  /** `owner` is the real state of the mutexes; `counter` is sync_seq. */
  datatype State = State(pcs: map<Tid, Pc>, owner: map<MutexId, Tid>, counter: nat, log: seq<Record>)

  function PcOf(s: State, t: Tid): Pc { if t in s.pcs then s.pcs[t] else Idle }

  function Go(s: State, t: Tid, pc: Pc): State { s.(pcs := s.pcs[t := pc]) }

  predicate Owns(s: State, t: Tid, m: MutexId) { m in s.owner && s.owner[m] == t }

  predicate Init(s: State) { s.pcs == map[] && s.owner == map[] && s.counter == FIRST_SEQ && s.log == [] }

  /** What a program may call: it unlocks, and waits with, only a mutex it owns. */
  predicate MayCall(s: State, t: Tid, op: Op) {
    op.Unlock? || op.CondWait? ==> Owns(s, t, op.m)
  }

  /** One atomic step of thread t.  `result` is what a failing real call returns. */
  datatype Step = Begin(op: Op) | TakeNumber | Write | Real | RealFails(result: int) | Wake

  predicate Enabled(s: State, t: Tid, step: Step) {
    match step
    case Begin(op) => PcOf(s, t).Idle? && MayCall(s, t, op)
    case TakeNumber => PcOf(s, t).Numbering? || PcOf(s, t).NumberingLeave?
    case Write => PcOf(s, t).Writing? || PcOf(s, t).WritingLeave?
    case Real => PcOf(s, t).Calling? && (PcOf(s, t).op.Lock? ==> PcOf(s, t).op.m !in s.owner)
    case RealFails(result) => PcOf(s, t).Calling? && result != 0 && !PcOf(s, t).op.Unlock?
    case Wake => PcOf(s, t).Blocked? && PcOf(s, t).m !in s.owner
  }

  function Next(s: State, t: Tid, step: Step): State
    requires Enabled(s, t, step)
  {
    var pc := PcOf(s, t);
    match step
    case Begin(op) => Go(s, t, Numbering(op))
    case TakeNumber =>
      var n := s.counter + 1;
      Go(s.(counter := n), t, if pc.Numbering? then Writing(pc.op, n) else WritingLeave(pc.op, pc.ret, n))
    case Write =>
      if pc.Writing? then Go(s.(log := s.log + [Record(pc.seqNo, t, pc.op, Enter, 0)]), t, Calling(pc.op))
      else Go(s.(log := s.log + [Record(pc.seqNo, t, pc.op, Leave, pc.ret)]), t, Idle)
    case Real =>
      (match pc.op
       case Lock(m) => Go(s.(owner := s.owner[m := t]), t, NumberingLeave(pc.op, 0))
       case Unlock(m) => Go(s.(owner := s.owner - {m}), t, NumberingLeave(pc.op, 0))
       case CondWait(m) => Go(s.(owner := s.owner - {m}), t, Blocked(m))
       case Other => Go(s, t, NumberingLeave(pc.op, 0)))
    case RealFails(result) => Go(s, t, NumberingLeave(pc.op, result))
    case Wake => Go(s.(owner := s.owner[pc.m := t]), t, NumberingLeave(CondWait(pc.m), 0))
  }

  // ---------- what the log says about one mutex ----------

  /** A line that says its thread got the mutex: lock left with 0, or cond_wait left. */
  predicate IsAcquire(r: Record, m: MutexId) {
    r.phase.Leave? && ((r.op == Lock(m) && r.ret == 0) || r.op == CondWait(m))
  }

  /** A line that says its thread is giving it up: unlock entered, or cond_wait entered. */
  predicate IsRelease(r: Record, m: MutexId) {
    r.phase.Enter? && (r.op == Unlock(m) || r.op == CondWait(m))
  }

  predicate Concerns(r: Record, m: MutexId) { IsAcquire(r, m) || IsRelease(r, m) }

  /** The log restricted to the acquisitions and releases of m. */
  function Restrict(log: seq<Record>, m: MutexId): seq<Record> {
    if log == [] then []
    else Restrict(log[..|log| - 1], m) + if Concerns(log[|log| - 1], m) then [log[|log| - 1]] else []
  }

  /** Acquisitions and releases alternate, each release is by the thread of the acquisition before
      it, and seq strictly increases. */
  predicate WellPaired(rs: seq<Record>, m: MutexId) {
    && (forall i :: 0 <= i < |rs| ==> if i % 2 == 0 then IsAcquire(rs[i], m) else IsRelease(rs[i], m))
    && (forall i :: 0 <= i < |rs| && i % 2 == 1 ==> rs[i].tid == rs[i - 1].tid)
    && (forall i, j :: 0 <= i < j < |rs| ==> rs[i].seqNo < rs[j].seqNo)
  }

  /** The owner the log implies: the thread of an acquisition not yet followed by a release. */
  function LoggedOwner(log: seq<Record>, m: MutexId): set<Tid> {
    var rs := Restrict(log, m);
    if |rs| % 2 == 1 then {rs[|rs| - 1].tid} else {}
  }

  // ---------- the invariant ----------

  /** t has taken m but not yet written the line that says so. */
  predicate Arriving(pc: Pc, m: MutexId) {
    (pc.NumberingLeave? || pc.WritingLeave?) && ((pc.op == Lock(m) && pc.ret == 0) || pc.op == CondWait(m))
  }

  /** t has written the line that gives m up but not yet done so. */
  predicate Departing(pc: Pc, m: MutexId) { pc.Calling? && (pc.op == Unlock(m) || pc.op == CondWait(m)) }

  /** t is about to write the line that gives m up. */
  predicate Announcing(pc: Pc, m: MutexId) {
    (pc.Numbering? || pc.Writing?) && (pc.op == Unlock(m) || pc.op == CondWait(m))
  }

  predicate Engaged(pc: Pc, m: MutexId) { Arriving(pc, m) || Departing(pc, m) || Announcing(pc, m) }

  /** Whoever is arriving, departing or announcing owns the mutex. */
  ghost predicate Held(s: State) {
    forall t, m :: Engaged(PcOf(s, t), m) ==> Owns(s, t, m)
  }

  /** The log names the owner, except while that owner is arriving or departing. */
  predicate OwnerLogged(s: State, m: MutexId) {
    LoggedOwner(s.log, m) ==
      if m in s.owner && !Arriving(PcOf(s, s.owner[m]), m) && !Departing(PcOf(s, s.owner[m]), m)
      then {s.owner[m]} else {}
  }

  predicate IsPending(pc: Pc) { pc.Writing? || pc.WritingLeave? }

  /** Numbers: those written and those about to be written are all different and at most the counter. */
  ghost predicate Numbered(s: State) {
    && (forall i :: 0 <= i < |s.log| ==> FIRST_SEQ < s.log[i].seqNo <= s.counter)
    && (forall i, j :: 0 <= i < j < |s.log| ==> s.log[i].seqNo != s.log[j].seqNo)
    && (forall t :: IsPending(PcOf(s, t)) ==> FIRST_SEQ < PcOf(s, t).seqNo <= s.counter)
    && (forall t, i :: IsPending(PcOf(s, t)) && 0 <= i < |s.log| ==> PcOf(s, t).seqNo != s.log[i].seqNo)
    && (forall t, u :: IsPending(PcOf(s, t)) && IsPending(PcOf(s, u)) && t != u ==>
      PcOf(s, t).seqNo != PcOf(s, u).seqNo)
    && s.counter >= FIRST_SEQ
  }

  /** A pending line about m has a number above every line about m. */
  ghost predicate PendingIsLatest(s: State, m: MutexId) {
    forall t, i :: 0 <= i < |Restrict(s.log, m)| && IsPending(PcOf(s, t))
                   && (Arriving(PcOf(s, t), m) || Announcing(PcOf(s, t), m)) ==>
      Restrict(s.log, m)[i].seqNo < PcOf(s, t).seqNo
  }

  ghost predicate MutexInv(s: State, m: MutexId) {
    WellPaired(Restrict(s.log, m), m) && OwnerLogged(s, m) && PendingIsLatest(s, m)
  }

  ghost predicate Inv(s: State) {
    Held(s) && Numbered(s) && forall m :: MutexInv(s, m)
  }

  /** The mutex whose owner the step changes, and the thread that had it before, if any. */
  lemma OwnerChange(s: State, t: Tid, step: Step, m: MutexId)
    requires Held(s) && Enabled(s, t, step)
    ensures var v := Next(s, t, step);
      || ((m in v.owner <==> m in s.owner) && (m in s.owner ==> v.owner[m] == s.owner[m]))
      || (m !in s.owner && Owns(v, t, m) && Arriving(PcOf(v, t), m))
      || (Owns(s, t, m) && m !in v.owner && Departing(PcOf(s, t), m))
  {
    hide Held;
    if step.Real? && (PcOf(s, t).op.Unlock? || PcOf(s, t).op.CondWait?) {
      assert Owns(s, t, PcOf(s, t).op.m) by { HeldAt(s, t, PcOf(s, t).op.m); }
    }
  }

  lemma HeldAt(s: State, t: Tid, m: MutexId)
    requires Held(s)
    ensures Engaged(PcOf(s, t), m) ==> Owns(s, t, m)
  {
  }

  lemma NextHeld(s: State, t: Tid, step: Step)
    requires Held(s) && Enabled(s, t, step)
    ensures Held(Next(s, t, step))
  {
    hide Held;
    var v := Next(s, t, step);
    assert forall u, m :: Engaged(PcOf(v, u), m) ==> Owns(v, u, m) by {
      forall u, m | Engaged(PcOf(v, u), m)
        ensures Owns(v, u, m)
      {
        HeldAt(s, u, m);
        OwnerChange(s, t, step, m);
        if u != t {
          assert PcOf(v, u) == PcOf(s, u);
        }
      }
    }
    HeldIf(v);
  }

  lemma HeldIf(s: State)
    requires forall t, m :: Engaged(PcOf(s, t), m) ==> Owns(s, t, m)
    ensures Held(s)
  {
  }

  lemma NumberTaken(s: State, t: Tid)
    requires Numbered(s) && Enabled(s, t, TakeNumber)
    ensures Numbered(Next(s, t, TakeNumber))
  {
    var v := Next(s, t, TakeNumber);
    assert forall u :: u != t ==> PcOf(v, u) == PcOf(s, u);
    assert IsPending(PcOf(v, t)) && PcOf(v, t).seqNo == s.counter + 1;
  }

  lemma NumberWritten(s: State, t: Tid)
    requires Numbered(s) && Enabled(s, t, Write)
    ensures Numbered(Next(s, t, Write))
  {
    var v := Next(s, t, Write);
    assert forall u :: u != t ==> PcOf(v, u) == PcOf(s, u);
    assert IsPending(PcOf(s, t)) && !IsPending(PcOf(v, t));
    assert v.log[..|s.log|] == s.log && v.log[|s.log|].seqNo == PcOf(s, t).seqNo;
    assert |v.log| == |s.log| + 1 && v.counter == s.counter;
    hide Next, Enabled, PcOf, IsPending;
    assert forall i :: 0 <= i < |s.log| ==> v.log[i] == s.log[i];
  }

  lemma NextNumbered(s: State, t: Tid, step: Step)
    requires Numbered(s) && Enabled(s, t, step)
    ensures Numbered(Next(s, t, step))
  {
    if step.TakeNumber? {
      hide Numbered, Next, Enabled;
      NumberTaken(s, t);
    } else if step.Write? {
      hide Numbered, Next, Enabled;
      NumberWritten(s, t);
    } else {
      var v := Next(s, t, step);
      assert forall u :: u != t ==> PcOf(v, u) == PcOf(s, u);
      assert !IsPending(PcOf(v, t)) && v.log == s.log && v.counter == s.counter;
    }
  }

  lemma RestrictAppend(log: seq<Record>, r: Record, m: MutexId)
    ensures Restrict(log + [r], m) == Restrict(log, m) + if Concerns(r, m) then [r] else []
  {
    assert (log + [r])[..|log|] == log;
  }

  lemma {:induction false} RestrictIsPart(log: seq<Record>, m: MutexId)
    ensures forall r :: r in Restrict(log, m) ==> r in log && Concerns(r, m)
  {
    if log != [] {
      RestrictIsPart(log[..|log| - 1], m);
    }
  }

  /** A line about m is appended by the thread that owns m, in its turn. */
  lemma AppendPaired(rs: seq<Record>, r: Record, m: MutexId)
    requires WellPaired(rs, m) && (forall i :: 0 <= i < |rs| ==> rs[i].seqNo < r.seqNo)
    requires if |rs| % 2 == 0 then IsAcquire(r, m) else IsRelease(r, m) && rs[|rs| - 1].tid == r.tid
    ensures WellPaired(rs + [r], m)
  {
  }

  /** Only one thread at a time is arriving at, or announcing that it leaves, one mutex. */
  lemma OneAtATime(s: State, t: Tid, u: Tid, m: MutexId)
    requires Held(s) && t != u && (Arriving(PcOf(s, t), m) || Announcing(PcOf(s, t), m))
    ensures !Arriving(PcOf(s, u), m) && !Announcing(PcOf(s, u), m)
  {
    HeldAt(s, t, m);
    HeldAt(s, u, m);
  }

  lemma WritePaired(s: State, t: Tid, m: MutexId)
    requires Held(s) && MutexInv(s, m) && Enabled(s, t, Write)
    ensures var v := Next(s, t, Write); WellPaired(Restrict(v.log, m), m) && OwnerLogged(v, m)
  {
    hide Restrict, Held;
    var pc, v := PcOf(s, t), Next(s, t, Write);
    var r := v.log[|s.log|];
    var rs := Restrict(s.log, m);
    assert v.log == s.log + [r];
    RestrictAppend(s.log, r, m);
    assert forall u :: u != t ==> PcOf(v, u) == PcOf(s, u);
    if Concerns(r, m) {
      hide WellPaired;
      HeldAt(s, t, m);
      assert Arriving(pc, m) || Announcing(pc, m);
      assert IsPending(pc);
      AppendPaired(rs, r, m);
    } else {
      assert rs + [] == rs;
    }
  }

  lemma WriteKeepsMutex(s: State, t: Tid, m: MutexId)
    requires Held(s) && Numbered(s) && MutexInv(s, m) && Enabled(s, t, Write)
    ensures MutexInv(Next(s, t, Write), m)
  {
    hide WellPaired, Restrict, Numbered, OwnerLogged, Held;
    var pc, v := PcOf(s, t), Next(s, t, Write);
    var r := v.log[|s.log|];
    var rs := Restrict(s.log, m);
    assert v.log == s.log + [r];
    WritePaired(s, t, m);
    RestrictAppend(s.log, r, m);
    assert forall u :: u != t ==> PcOf(v, u) == PcOf(s, u);
    assert !IsPending(PcOf(v, t));
    if Concerns(r, m) {
      assert Arriving(pc, m) || Announcing(pc, m);
      forall u | u != t ensures !Arriving(PcOf(s, u), m) && !Announcing(PcOf(s, u), m) {
        OneAtATime(s, t, u, m);
      }
    } else {
      assert rs + [] == rs;
    }
  }

  lemma QuietOwnerLogged(s: State, t: Tid, step: Step, m: MutexId)
    requires Held(s) && OwnerLogged(s, m) && Enabled(s, t, step) && !step.Write?
    ensures OwnerLogged(Next(s, t, step), m)
  {
    hide Restrict, Held, LoggedOwner;
    var pc, v := PcOf(s, t), Next(s, t, step);
    assert v.log == s.log;
    assert forall u :: u != t ==> PcOf(v, u) == PcOf(s, u);
    OwnerChange(s, t, step, m);
    HeldAt(s, t, m);
  }

  lemma QuietKeepsMutex(s: State, t: Tid, step: Step, m: MutexId)
    requires Held(s) && Numbered(s) && MutexInv(s, m) && Enabled(s, t, step) && !step.Write?
    ensures MutexInv(Next(s, t, step), m)
  {
    hide WellPaired, Restrict, OwnerLogged, Held;
    var pc, v := PcOf(s, t), Next(s, t, step);
    assert v.log == s.log;
    QuietOwnerLogged(s, t, step, m);
    RestrictIsPart(s.log, m);
    assert forall i :: 0 <= i < |Restrict(s.log, m)| ==> Restrict(s.log, m)[i] in s.log;
    assert forall u :: u != t ==> PcOf(v, u) == PcOf(s, u);
    assert step.TakeNumber? || !IsPending(PcOf(v, t));
  }

  /** Every step of every thread keeps the invariant. */
  lemma NextKeepsInv(s: State, t: Tid, step: Step)
    requires Inv(s) && Enabled(s, t, step)
    ensures Inv(Next(s, t, step))
  {
    hide Held, Numbered, MutexInv, Enabled, Next;
    NextHeld(s, t, step);
    NextNumbered(s, t, step);
    forall m
      ensures MutexInv(Next(s, t, step), m)
    {
      if step.Write? {
        WriteKeepsMutex(s, t, m);
      } else {
        QuietKeepsMutex(s, t, step, m);
      }
    }
  }

  lemma InitInv(s: State)
    requires Init(s)
    ensures Inv(s)
  {
  }

  // ---------- runs ----------

  datatype Move = Move(tid: Tid, step: Step)

  /** The states an interleaving can reach. */
  ghost predicate Reaches(s: State, moves: seq<Move>, v: State)
    decreases |moves|
  {
    if moves == [] then v == s
    else Enabled(s, moves[0].tid, moves[0].step) && Reaches(Next(s, moves[0].tid, moves[0].step), moves[1..], v)
  }

  lemma {:induction false} ReachedInv(s: State, moves: seq<Move>, v: State)
    requires Inv(s) && Reaches(s, moves, v)
    ensures Inv(v)
    decreases |moves|
  {
    hide Inv, Enabled, Next;
    if moves != [] {
      NextKeepsInv(s, moves[0].tid, moves[0].step);
      ReachedInv(Next(s, moves[0].tid, moves[0].step), moves[1..], v);
    }
  }

  /** In every interleaving of any number of threads, over any mutexes: the acquisitions and releases
      of one mutex in the log alternate, pair by thread and increase in seq; an owner derived from the
      log is the real owner; and every number in the log is different and above 10^9. */
  lemma LogIsSound(s: State, moves: seq<Move>, v: State, m: MutexId)
    requires Init(s) && Reaches(s, moves, v)
    ensures WellPaired(Restrict(v.log, m), m)
    ensures forall t :: t in LoggedOwner(v.log, m) ==> Owns(v, t, m)
    ensures forall i, j :: 0 <= i < j < |v.log| ==> v.log[i].seqNo != v.log[j].seqNo
    ensures forall i :: 0 <= i < |v.log| ==> v.log[i].seqNo > FIRST_SEQ
  {
    hide Reaches, Held;
    InitInv(s);
    ReachedInv(s, moves, v);
    assert MutexInv(v, m);
  }

  /** The converse, as far as it goes: a real owner the log does not name is one that has just got the
      mutex or is just giving it up. */
  lemma UnloggedOwner(s: State, moves: seq<Move>, v: State, m: MutexId)
    requires Init(s) && Reaches(s, moves, v) && m in v.owner
    ensures LoggedOwner(v.log, m) == {v.owner[m]}
        <==> !Arriving(PcOf(v, v.owner[m]), m) && !Departing(PcOf(v, v.owner[m]), m)
  {
    hide Reaches, Held, Numbered;
    InitInv(s);
    ReachedInv(s, moves, v);
    assert MutexInv(v, m);
  }

  // ---------- no number is skipped ----------

  /** A number some line bears, or a thread is about to write. */
  predicate Taken(s: State, n: nat) {
    || (exists i :: 0 <= i < |s.log| && s.log[i].seqNo == n)
    || (exists t :: t in s.pcs && IsPending(s.pcs[t]) && s.pcs[t].seqNo == n)
  }

  lemma NextTakes(s: State, t: Tid, step: Step, n: nat)
    requires Enabled(s, t, step) && Taken(s, n)
    ensures Taken(Next(s, t, step), n)
  {
    var v := Next(s, t, step);
    if i :| 0 <= i < |s.log| && s.log[i].seqNo == n {
      assert v.log[i].seqNo == n;
    } else {
      var u :| u in s.pcs && IsPending(s.pcs[u]) && s.pcs[u].seqNo == n;
      if u == t {
        assert step.Write? && v.log[|s.log|].seqNo == n;
      } else {
        assert u in v.pcs && v.pcs[u] == s.pcs[u];
      }
    }
  }

  lemma NextCounts(s: State, t: Tid, step: Step)
    requires Enabled(s, t, step)
    ensures var v := Next(s, t, step);
            v.counter == s.counter || (v.counter == s.counter + 1 && Taken(v, v.counter))
  {
    var v := Next(s, t, step);
    if step.TakeNumber? {
      assert t in v.pcs && IsPending(v.pcs[t]) && v.pcs[t].seqNo == v.counter;
    }
  }

  lemma {:induction false} NumbersTaken(s: State, moves: seq<Move>, v: State)
    requires Reaches(s, moves, v) && forall n :: FIRST_SEQ < n <= s.counter ==> Taken(s, n)
    ensures forall n :: FIRST_SEQ < n <= v.counter ==> Taken(v, n)
    decreases |moves|
  {
    hide Taken, Enabled, Next;
    if moves != [] {
      var u := Next(s, moves[0].tid, moves[0].step);
      NextCounts(s, moves[0].tid, moves[0].step);
      forall n | FIRST_SEQ < n <= u.counter
        ensures Taken(u, n)
      {
        if n <= s.counter {
          NextTakes(s, moves[0].tid, moves[0].step, n);
        }
      }
      NumbersTaken(u, moves[1..], v);
    }
  }

  /** In every interleaving every number from 1000000001 up to the counter is on a line of the log, or a thread
      that has taken it is about to write that line; so once no thread is, the log has them all. */
  lemma NoNumberSkipped(s: State, moves: seq<Move>, v: State, n: nat)
    requires Init(s) && Reaches(s, moves, v) && 1_000_000_001 <= n <= v.counter
    ensures (exists i :: 0 <= i < |v.log| && v.log[i].seqNo == n)
         || (exists t :: t in v.pcs && IsPending(v.pcs[t]) && v.pcs[t].seqNo == n)
    ensures (forall t :: !IsPending(PcOf(v, t))) ==> exists i :: 0 <= i < |v.log| && v.log[i].seqNo == n
  {
    hide Reaches;
    NumbersTaken(s, moves, v);
    assert Taken(v, n);
    assert forall t :: t in v.pcs ==> PcOf(v, t) == v.pcs[t];
  }
}
