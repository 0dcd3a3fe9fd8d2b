/** What a tracer sees of its child: a stream of stops, each with the registers and the memory. */
module Ptrace {
  import opened CText
  import opened Sha256
  import opened ChildMemory
  import opened TraceEvent
  import opened TraceLog

  datatype Regs = Regs(origRax: int, rax: int, args: Args)

  /** `copied` is how many bytes the copy routine manages to move at this stop. */
  datatype Stop =
    | SyscallStop(regs: Regs, mem: Memory, copied: nat)
    | OtherStop
    | Exited(code: int)
    | Signaled(signal: int)
    | Lost

  /** One turn of a tracer's loop: the clock, the lines the child's hook appended since the last
      turn, and the stop. */
  datatype Tick = Tick(now: nat, hooks: seq<HookEvent>, stop: Stop)

  datatype Outcome = Outcome(exitCode: int, signal: int)

  const NO_ENTRY := Entry(0, [0, 0, 0, 0, 0, 0])

  /** payload_len: how much of the buffer a call filled. */
  function PayloadLen(e: Entry, ret: int): nat {
    if ret < 0 then 0
    else if e.no == SYS_READ || e.no == SYS_GETRANDOM then ret
    else if e.no == SYS_CLOCK_GETTIME || e.no == SYS_GETTIMEOFDAY then if ret == 0 then 16 else 0
    else 0
  }

  /** read_child_mem when it returns the full length. */
  function CopyOut(mem: Memory, copied: nat, addr: nat, len: nat): Option<seq<byte>> {
    if len <= copied && Mapped(mem, addr, len) then Some(BytesAt(mem, addr, len)) else None
  }

  // ---------- the calls a stream contains, read off the stream alone ----------

  /** A completed call: its entry registers, its result, and the buffer the recorder can keep. */
  datatype Call = Call(entry: Entry, ret: int, data: Option<seq<byte>>)

  function CallData(e: Entry, ret: int, mem: Memory, copied: nat): Option<seq<byte>> {
    if IsReplayable(e.no) && PayloadLen(e, ret) > 0
    then CopyOut(mem, copied, PayloadAddr(e), PayloadLen(e, ret)) else None
  }

  predicate Ends(stop: Stop) { stop.Exited? || stop.Signaled? || stop.Lost? }

  /** Syscall stops pair up as entry and exit until the child is gone. */
  function CallsOf(ticks: seq<Tick>, pending: Option<Entry>): seq<Call>
    decreases |ticks|
  {
    if ticks == [] then []
    else
      match ticks[0].stop
      case SyscallStop(regs, mem, copied) =>
        (match pending
         case None => CallsOf(ticks[1..], Some(Entry(regs.origRax, regs.args)))
         case Some(e) => [Call(e, regs.rax, CallData(e, regs.rax, mem, copied))] + CallsOf(ticks[1..], None))
      case OtherStop => CallsOf(ticks[1..], pending)
      case Exited(_) => []
      case Signaled(_) => []
      case Lost => []
  }
}
