/** The name printed for a system call and the number printed beside it: one says the other. */
module SyscallNames {
  import opened CText
  import opened EventText
  import opened TraceEvent
  import opened TraceLog
  import opened Ptrace
  import opened Recorder
  import opened Verifier
  import opened TraceReader
  import opened EventDecode
  import opened TraceText
  import opened TraceBounds
  import opened TraceShape

  /** The x86-64 number of a call, read off its name. */
  function NumberOf(name: string): Option<int> {
    if name == "read" then Some(0)
    else if name == "write" then Some(1)
    else if name == "close" then Some(3)
    else if name == "lseek" then Some(8)
    else if name == "gettimeofday" then Some(96)
    else if name == "futex" then Some(202)
    else if name == "clock_gettime" then Some(228)
    else if name == "openat" then Some(257)
    else if name == "getrandom" then Some(318)
    else if "sys_" <= name then ParseLong(name[4..])
    else None
  }

  /** Has the call a name of its own? */
  predicate IsNamed(no: int) { no in {0, 1, 3, 8, 96, 202, 228, 257, 318} }

  lemma NamedRoundTrip(no: int)
    requires IsNamed(no)
    ensures NumberOf(SyscallName(no)) == Some(no) && !("sys_" <= SyscallName(no))
  {
    assert SyscallName(no)[0] != 's' == "sys_"[0];
  }

  lemma GeneratedName(no: int)
    requires !IsNamed(no)
    ensures SyscallName(no) == "sys_" + SignedDecimal(no)
  {
    hide SignedDecimal;
  }

  lemma GeneratedReads(digits: string)
    ensures NumberOf("sys_" + digits) == ParseLong(digits)
  {
    var name := "sys_" + digits;
    assert name[0] == 's' && name[1] == 'y' && name[4..] == digits;
  }

  /** The name says the number, for every number a call can have; it is a generated one for the calls without
      a name of their own, and only for those. */
  lemma NameTellsNumber(no: int)
    requires IsLong(no)
    ensures NumberOf(SyscallName(no)) == Some(no)
    ensures "sys_" <= SyscallName(no) <==> !IsNamed(no)
  {
    if IsNamed(no) {
      NamedRoundTrip(no);
    } else {
      hide SyscallName, NumberOf, ParseLong, SignedDecimal;
      GeneratedName(no);
      GeneratedReads(SignedDecimal(no));
      ParsePrinted(no, "");
      assert SignedDecimal(no) + "" == SignedDecimal(no);
    }
  }

  // ---------- what the verifier reads ----------

  /** Name and number belong to the same call. */
  predicate SameCall(e: JsonEvent) {
    e.etype == Some("SYSCALL") ==>
      e.name.Some? && e.syscallNo.Some? && NumberOf(e.name.value) == Some(e.syscallNo.value)
  }

  lemma EventSameCall(e: Event)
    requires Typed(e)
    ensures SameCall(ViewEvent(e))
  {
    hide SyscallName, NumberOf, ErrnoOf;
    if e.Syscall? {
      NameTellsNumber(e.entry.no);
    } else {
      assert "PROCESS"[0] == 'P' && "SYSCALL"[0] == 'S';
    }
  }

  lemma HookSameCall(h: HookEvent)
    ensures SameCall(ViewHook(h))
  {
    hide NumberOf;
    assert "SYNC"[2] == 'N' && "SYSCALL"[2] == 'S';
  }

  lemma {:induction false} LinesSameCall(lines: seq<Line>, runId: string, target: string, kind: HookEvent -> bool)
    requires Shaped(lines, runId, target, kind)
    ensures forall e :: e in View(lines) ==> SameCall(e)
  {
    hide ViewEvent, ViewHook, HookLine, SameCall, Typed, IsHex;
    if lines != [] {
      var p, l := lines[..|lines| - 1], lines[|lines| - 1];
      assert forall i :: 0 <= i < |p| ==> p[i] == lines[i];
      LinesSameCall(p, runId, target, kind);
      assert LineShaped(l, runId, target, kind);
      if l.Own? {
        EventSameCall(l.event);
      } else {
        HookSameCall(l.hook);
      }
    }
  }

  /** In what the verifier reads of any recording under legible names, the name of each syscall event belongs
      to its number. */
  lemma LoadedNamesAgree(runId: string, pid: int, now: nat, target: string, ticks: seq<Tick>, ahead: nat)
    requires LegibleRun(runId, pid, now, target, ticks) && DataTotal(CallsOf(ticks, None)) <= LONG_MAX
    ensures var events := LoadEvents(FileText(Run(Start(runId, pid, now, target), ticks).w.lines), ahead);
            events.Some? && forall e :: e in events.value ==> SameCall(e)
  {
    hide LegibleNames, RunTyped, Run, Start, Shaped, FileText, View, LoadEvents, LoadQuietly, SameCall, DataTotal;
    hide CallsOf;
    RecordingLoads(runId, pid, now, target, ticks, ahead);
    RecordingShaped(runId, pid, now, target, ticks, LegibleHook);
    LinesSameCall(Run(Start(runId, pid, now, target), ticks).w.lines, runId, target, LegibleHook);
  }
}
