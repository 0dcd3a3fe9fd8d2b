/** What a replay does not give back: the arguments of the recorded run and the environment it had. */
module Arguments {
  import opened CText
  import opened Sha256
  import opened TraceEvent
  import opened Ptrace
  import opened Recorder
  import opened Replayer
  import opened DriftDetection
  import opened Pipeline
  import opened Metadata
  import opened Programs
  import opened Reproduction

  /** What exec hands over under either tracer, member by member. */
  lemma LaunchesAre(out: string, argv: seq<string>, target: string, env: map<string, string>, name: string)
    ensures RecordLaunch(out, argv, env).argv == argv && ReplayLaunch(out, target, env).argv == [target]
    ensures var r, p := RecordLaunch(out, argv, env).env, ReplayLaunch(out, target, env).env;
            && {"ADR_TRACE_DIR", "ADR_RUN_ID", "ADR_RUN_MODE"} <= r.Keys == p.Keys
            && r["ADR_TRACE_DIR"] == p["ADR_TRACE_DIR"] == out
            && r["ADR_RUN_ID"] == p["ADR_RUN_ID"] == Basename(out)
            && r["ADR_RUN_MODE"] == "record" && p["ADR_RUN_MODE"] == "replay"
            && (name != "ADR_TRACE_DIR" && name != "ADR_RUN_ID" && name != "ADR_RUN_MODE" ==>
                 && (name in env ==> name in r && name in p && r[name] == p[name] == env[name])
                 && (name !in env ==> name !in r && name !in p))
  {
    hide Basename;
    assert "ADR_TRACE_DIR"[4] == 'T' && "ADR_RUN_ID"[4] == 'R' && "ADR_RUN_MODE"[8] == 'M' && "ADR_RUN_ID"[8] == 'I';
  }

  const SYS_EXIT_GROUP := 231

  /** Leaves at once, with what it makes of its start as exit code. */
  function Observer(look: Launch -> int): Program<int> {
    Program(look, code => Leave(code, Some(Entry(SYS_EXIT_GROUP, [0, 0, 0, 0, 0, 0]))), (p, ret, mem) => p)
  }

  /** Its two runs end as it was started, each on its own. */
  lemma ObserverEnds(look: Launch -> int, argv: seq<string>, env: map<string, string>, env2: map<string, string>,
                     f: Closing, g: Closing, out: string, pid: int, now: nat, target: string,
                     out2: string, pid2: int, now2: nat, target2: string, queue: seq<ReplayEvent>, store: seq<byte>)
    requires Intact(queue, store)
    ensures var t := Observer(look);
            var p, q := t.start(RecordLaunch(out, argv, env)), t.start(ReplayLaunch(out2, target2, env2));
            var begin := Begin(Basename(out2), pid2, now2, target2, queue, store);
            && Run(Start(Basename(out), pid, now, target), RecordTicks(t, p, [], f)).outcome
               == Some(Outcome(look(RecordLaunch(out, argv, env)), 0))
            && RRun(begin, ReplayTicks(t, q, begin, [], g)).outcome
               == Some(Outcome(look(ReplayLaunch(out2, target2, env2)), 0))
  {
    hide Run, RRun, Start, Begin, EndTicks, Following, OnTrack, Intact, Lives;
    var t := Observer(look);
    var p, q := t.start(RecordLaunch(out, argv, env)), t.start(ReplayLaunch(out2, target2, env2));
    StartFields(Basename(out), pid, now, target);
    RecordOutcome(t, p, [], f, Start(Basename(out), pid, now, target));
    BeginOnTrack(Basename(out2), pid2, now2, target2, queue, store);
    BeginFields(Basename(out2), pid2, now2, target2, queue, store);
    EndEffect(Begin(Basename(out2), pid2, now2, target2, queue, store), t.act(q), g);
  }

  function ArgumentCount(l: Launch): int { |l.argv| }

  /** Arguments are lost: a program that exits with the number of its arguments is replayed as one without. */
  lemma ArgumentsLost(argv: seq<string>, env: map<string, string>, env2: map<string, string>, f: Closing, g: Closing,
                      out: string, pid: int, now: nat, target: string,
                      out2: string, pid2: int, now2: nat, target2: string, queue: seq<ReplayEvent>, store: seq<byte>)
    requires Intact(queue, store)
    ensures var t := Observer(ArgumentCount);
            var p, q := t.start(RecordLaunch(out, argv, env)), t.start(ReplayLaunch(out2, target2, env2));
            var begin := Begin(Basename(out2), pid2, now2, target2, queue, store);
            && Run(Start(Basename(out), pid, now, target), RecordTicks(t, p, [], f)).outcome == Some(Outcome(|argv|, 0))
            && RRun(begin, ReplayTicks(t, q, begin, [], g)).outcome == Some(Outcome(1, 0))
  {
    hide Run, RRun, Start, Begin, RecordTicks, ReplayTicks, Intact;
    ObserverEnds(ArgumentCount, argv, env, env2, f, g, out, pid, now, target, out2, pid2, now2, target2, queue, store);
  }

  /** And the mode is shown: a program that looks at ADR_RUN_MODE can tell a replay from its recording. */
  lemma ModeShown(argv: seq<string>, env: map<string, string>, env2: map<string, string>, f: Closing, g: Closing,
                  out: string, pid: int, now: nat, target: string,
                  out2: string, pid2: int, now2: nat, target2: string, queue: seq<ReplayEvent>, store: seq<byte>)
    requires Intact(queue, store)
    ensures var t := Observer(Mode);
            var p, q := t.start(RecordLaunch(out, argv, env)), t.start(ReplayLaunch(out2, target2, env2));
            var begin := Begin(Basename(out2), pid2, now2, target2, queue, store);
            && Run(Start(Basename(out), pid, now, target), RecordTicks(t, p, [], f)).outcome == Some(Outcome(0, 0))
            && RRun(begin, ReplayTicks(t, q, begin, [], g)).outcome == Some(Outcome(1, 0))
  {
    hide Run, RRun, Start, Begin, RecordTicks, ReplayTicks, Intact;
    ModesDiffer(out, argv, env, out2, target2, env2);
    ObserverEnds(Mode, argv, env, env2, f, g, out, pid, now, target, out2, pid2, now2, target2, queue, store);
  }

  function Mode(l: Launch): int {
    if "ADR_RUN_MODE" in l.env && l.env["ADR_RUN_MODE"] == "replay" then 1 else 0
  }

  lemma ModesDiffer(out: string, argv: seq<string>, env: map<string, string>, out2: string, target2: string,
                    env2: map<string, string>)
    ensures Mode(RecordLaunch(out, argv, env)) == 0 && Mode(ReplayLaunch(out2, target2, env2)) == 1
  {
    assert "record"[2] != "replay"[2];
  }
}
