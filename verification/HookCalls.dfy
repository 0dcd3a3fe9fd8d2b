/** The hook's log one thread at a time: each call has its enter line and its leave line, in that order and with
    rising numbers, and the leave line shows what the real call returned. */
module HookCalls {
  import opened SyncHook

  function ThreadLog(log: seq<Record>, t: Tid): seq<Record> {
    if log == [] then []
    else ThreadLog(log[..|log| - 1], t) + if log[|log| - 1].tid == t then [log[|log| - 1]] else []
  }

  /** Lines of one thread: enter, with result 0, and leave of the same call, by turns. */
  predicate ByTurns(rs: seq<Record>) {
    && (forall i :: 0 <= i < |rs| && i % 2 == 0 ==> rs[i].phase == Enter && rs[i].ret == 0)
    && (forall i :: 0 <= i < |rs| && i % 2 == 1 ==> rs[i].phase == Leave && rs[i].op == rs[i - 1].op)
    && (forall i, j :: 0 <= i < j < |rs| ==> rs[i].seqNo < rs[j].seqNo)
  }

  datatype Open = No | Yes(op: Op)

  /** The call whose enter line is written and whose leave line is not. */
  function OpenCall(pc: Pc): Open {
    match pc
    case Calling(op) => Yes(op)
    case Blocked(m) => Yes(CondWait(m))
    case NumberingLeave(op, _) => Yes(op)
    case WritingLeave(op, _, _) => Yes(op)
    case _ => No
  }

  ghost predicate ThreadInv(s: State, t: Tid) {
    var rs, pc := ThreadLog(s.log, t), PcOf(s, t);
    && ByTurns(rs)
    && (if |rs| % 2 == 0 then OpenCall(pc) == No else OpenCall(pc) == Yes(rs[|rs| - 1].op))
    && (forall i :: 0 <= i < |rs| ==> rs[i].seqNo <= s.counter && (IsPending(pc) ==> rs[i].seqNo < pc.seqNo))
    && (IsPending(pc) ==> pc.seqNo <= s.counter)
  }

  lemma ThreadLogAppend(log: seq<Record>, r: Record, t: Tid)
    ensures ThreadLog(log + [r], t) == ThreadLog(log, t) + if r.tid == t then [r] else []
  {
    assert (log + [r])[..|log|] == log;
  }

  lemma TurnsAppend(rs: seq<Record>, r: Record)
    requires ByTurns(rs) && forall i :: 0 <= i < |rs| ==> rs[i].seqNo < r.seqNo
    requires if |rs| % 2 == 0 then r.phase == Enter && r.ret == 0 else r.phase == Leave && r.op == rs[|rs| - 1].op
    ensures ByTurns(rs + [r])
  {
  }

  lemma WriteKeepsThread(s: State, u: Tid, t: Tid)
    requires ThreadInv(s, t) && Enabled(s, u, Write)
    ensures ThreadInv(Next(s, u, Write), t)
  {
    hide ThreadLog, ByTurns;
    var v := Next(s, u, Write);
    var r := v.log[|s.log|];
    assert v.log == s.log + [r];
    ThreadLogAppend(s.log, r, t);
    if u == t {
      TurnsAppend(ThreadLog(s.log, t), r);
    } else {
      assert ThreadLog(s.log, t) + [] == ThreadLog(s.log, t);
    }
  }

  lemma NextKeepsThread(s: State, u: Tid, step: Step, t: Tid)
    requires ThreadInv(s, t) && Enabled(s, u, step)
    ensures ThreadInv(Next(s, u, step), t)
  {
    hide ThreadLog, ByTurns;
    if step.Write? {
      WriteKeepsThread(s, u, t);
    } else {
      assert Next(s, u, step).log == s.log;
    }
  }

  // ---------- what the calls returned ----------

  /** What the real calls of thread t returned, in order, read off the moves: a call returns when it is made,
      except that a cond_wait that blocks returns 0 when it wakes. */
  function Returned(s: State, moves: seq<Move>, t: Tid): seq<int>
    decreases |moves|
  {
    if moves == [] || !Enabled(s, moves[0].tid, moves[0].step) then []
    else
      (if moves[0].tid != t then []
       else match moves[0].step
         case Real => if PcOf(s, t).op.CondWait? then [] else [0]
         case RealFails(result) => [result]
         case Wake => [0]
         case _ => [])
      + Returned(Next(s, moves[0].tid, moves[0].step), moves[1..], t)
  }

  /** What the leave lines say. */
  function LeaveResults(rs: seq<Record>): seq<int> {
    if rs == [] then []
    else LeaveResults(rs[..|rs| - 1]) + if rs[|rs| - 1].phase.Leave? then [rs[|rs| - 1].ret] else []
  }

  lemma LeaveResultsAppend(rs: seq<Record>, r: Record)
    ensures LeaveResults(rs + [r]) == LeaveResults(rs) + if r.phase.Leave? then [r.ret] else []
  {
    assert (rs + [r])[..|rs|] == rs;
  }

  /** A result whose line is still to be written. */
  function Owed(pc: Pc): seq<int> {
    if pc.NumberingLeave? || pc.WritingLeave? then [pc.ret] else []
  }

  function Shown(s: State, t: Tid): seq<int> { LeaveResults(ThreadLog(s.log, t)) + Owed(PcOf(s, t)) }

  lemma WriteShows(s: State, u: Tid, t: Tid)
    requires Enabled(s, u, Write)
    ensures Shown(Next(s, u, Write), t) == Shown(s, t)
  {
    hide ThreadLog, LeaveResults;
    var v := Next(s, u, Write);
    var r := v.log[|s.log|];
    assert v.log == s.log + [r];
    ThreadLogAppend(s.log, r, t);
    LeaveResultsAppend(ThreadLog(s.log, t), r);
    if u != t {
      assert ThreadLog(s.log, t) + [] == ThreadLog(s.log, t);
    }
  }

  lemma NextShows(s: State, m: Move, t: Tid)
    requires Enabled(s, m.tid, m.step)
    ensures Shown(Next(s, m.tid, m.step), t) == Shown(s, t) + Returned(s, [m], t)
  {
    hide ThreadLog, LeaveResults;
    assert [m][1..] == [];
    if m.step.Write? {
      WriteShows(s, m.tid, t);
    } else {
      assert Next(s, m.tid, m.step).log == s.log;
    }
  }

  lemma {:induction false} RunShows(s: State, moves: seq<Move>, v: State, t: Tid)
    requires Reaches(s, moves, v) && ThreadInv(s, t)
    ensures ThreadInv(v, t) && Shown(v, t) == Shown(s, t) + Returned(s, moves, t)
    decreases |moves|
  {
    hide ThreadInv, Shown, Enabled, Next;
    if moves == [] {
      assert Shown(s, t) + [] == Shown(s, t);
    } else {
      var m := moves[0];
      var u := Next(s, m.tid, m.step);
      NextKeepsThread(s, m.tid, m.step, t);
      NextShows(s, m, t);
      RunShows(u, moves[1..], v, t);
      assert [m][1..] == [];
      JoinResults(Shown(s, t), Returned(s, [m], t), Returned(u, moves[1..], t));
    }
  }

  lemma JoinResults(a: seq<int>, b: seq<int>, c: seq<int>)
    ensures (a + (b + [])) + c == a + (b + c) && b + [] == b
  {
  }

  /** In every interleaving, the lines of one thread: its calls one after the other, each with an enter line of
      result 0 and then a leave line, numbers rising; and the results on the leave lines are what the real calls
      returned, in order, the last one perhaps not yet written. */
  lemma CallsInTurn(s: State, moves: seq<Move>, v: State, t: Tid)
    requires Init(s) && Reaches(s, moves, v)
    ensures ByTurns(ThreadLog(v.log, t))
    ensures LeaveResults(ThreadLog(v.log, t)) + Owed(PcOf(v, t)) == Returned(s, moves, t)
    ensures PcOf(v, t) == Idle ==>
              |ThreadLog(v.log, t)| % 2 == 0 && LeaveResults(ThreadLog(v.log, t)) == Returned(s, moves, t)
  {
    hide Reaches, Returned;
    assert ThreadInv(s, t) && Shown(s, t) == [];
    RunShows(s, moves, v, t);
    assert [] + Returned(s, moves, t) == Returned(s, moves, t);
    hide ThreadLog, LeaveResults, ByTurns;
    assert LeaveResults(ThreadLog(v.log, t)) + [] == LeaveResults(ThreadLog(v.log, t));
  }

  /** Outside a wrapper any call may begin, an unlock or a cond_wait with a mutex the thread owns.  Inside one the
      thread can always go on, except to wake with a mutex another has; the real call succeeds whenever its mutex
      is free, and may fail with any result, except that an unlock of one's own mutex does not. */
  lemma WhatMayHappen(s: State, t: Tid, op: Op)
    ensures PcOf(s, t) == Idle ==>
              (Enabled(s, t, Begin(op)) <==>
                (op.Unlock? || op.CondWait? ==> op.m in s.owner && s.owner[op.m] == t))
    ensures PcOf(s, t) != Idle ==>
              ((forall step :: !Enabled(s, t, step)) <==> PcOf(s, t).Blocked? && PcOf(s, t).m in s.owner)
    ensures PcOf(s, t) == Calling(op) ==> (Enabled(s, t, Real) <==> (op.Lock? ==> op.m !in s.owner))
    ensures PcOf(s, t) == Calling(op) ==>
              forall result {:trigger RealFails(result)} ::
                Enabled(s, t, RealFails(result)) <==> result != 0 && !op.Unlock?
  {
    match PcOf(s, t) {
      case Idle =>
      case Numbering(_) => assert Enabled(s, t, TakeNumber);
      case NumberingLeave(_, _) => assert Enabled(s, t, TakeNumber);
      case Writing(_, _) => assert Enabled(s, t, Write);
      case WritingLeave(_, _, _) => assert Enabled(s, t, Write);
      case Calling(o) => assert Enabled(s, t, if o.Unlock? then Real else RealFails(1));
      case Blocked(m) => assert m !in s.owner ==> Enabled(s, t, Wake);
    }
  }
}
