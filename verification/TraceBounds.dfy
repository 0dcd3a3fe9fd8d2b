/** How long the lines get: what the buffers of the two tracers and of the hook leave room for. */
module TraceBounds {
  import opened CText
  import opened EventText
  import opened TraceEvent
  import opened TraceLog
  import opened HashChain
  import opened LineJson
  import opened EventJson
  import Hash

  /** run_id is the name of a directory. */
  const MAX_RUN_ID := 255

  predicate IsULong(n: int) { 0 <= n <= ULONG_MAX }

  predicate IsInt(n: int) { -0x8000_0000 <= n < 0x8000_0000 }

  predicate IsHex(s: string) { forall i :: 0 <= i < |s| ==> Hash.IsHexDigit(s[i]) }

  predicate TracerName(name: string) { name == "program_start" || name == "program_exit" || name == "program_signal" }

  predicate StampTyped(s: Stamp) { IsULong(s.seqNo) && IsULong(s.timeNs) && IsInt(s.pid) }

  predicate ArgsTyped(args: Args) { forall i :: 0 <= i < 6 ==> IsULong(args[i]) }

  predicate EntryTyped(e: Entry) { IsLong(e.no) && ArgsTyped(e.args) }

  predicate RefTyped(r: PayloadRef) { IsLong(r.offset) && IsLong(r.length) && |r.sha256| == 64 && IsHex(r.sha256) }

  /** An event a tracer can write: its numbers fit their C types. */
  predicate Typed(e: Event) {
    match e
    case Process(s, name, _) => StampTyped(s) && TracerName(name)
    case Syscall(s, entry, ret, p) =>
      StampTyped(s) && EntryTyped(entry) && IsLong(ret) && (p.Some? ==> RefTyped(p.value))
  }

  /** One long text among short ones. */
  lemma {:induction false} TextLengthOne(fs: seq<Field>, i: nat)
    requires i < |fs| && forall k :: 0 <= k < |fs| && k != i ==> |fs[k].text| <= 64
    ensures TextLength(fs) <= 64 * |fs| + |fs[i].text|
  {
    if i == 0 {
      TextLengthBound(fs[1..]);
    } else {
      TextLengthOne(fs[1..], i - 1);
    }
  }

  lemma NumberWidth(n: int)
    ensures IsULong(n) ==> |Decimal(n)| <= 20
    ensures IsLong(n) || IsULong(n) ==> |SignedDecimal(n)| <= 20
  {
    hide Decimal;
    PrintedWidth(n);
  }

  lemma HeaderTexts(s: Stamp, etype: string, name: string, phase: string)
    requires IsULong(s.seqNo) && IsULong(s.timeNs) && IsInt(s.pid) && |etype| <= 64 && |name| <= 64 && |phase| <= 64
    ensures var h := Header(s, etype, name, phase);
            && |h| == 9 && h[1].text == s.runId && (forall k :: 0 <= k < 9 && k != 1 ==> |h[k].text| <= 64)
            && forall k :: 0 <= k < 9 && h[k].Str? ==> |h[k].sep| == 1
  {
    hide Decimal, SignedDecimal;
    NumberWidth(s.seqNo);
    NumberWidth(s.timeNs);
    NumberWidth(s.pid);
  }

  ghost predicate Short(fs: seq<Field>) {
    forall k :: 0 <= k < |fs| ==> |fs[k].text| <= 64 && (fs[k].Str? ==> |fs[k].sep| == 1)
  }

  lemma CallShort(e: Entry)
    requires IsLong(e.no) && forall i :: 0 <= i < 6 ==> IsULong(e.args[i])
    ensures Short(CallFields(e))
  {
    hide Decimal, SignedDecimal;
    NumberWidth(e.no);
    NumberWidth(e.args[0]);
    NumberWidth(e.args[1]);
    NumberWidth(e.args[2]);
    NumberWidth(e.args[3]);
    NumberWidth(e.args[4]);
    NumberWidth(e.args[5]);
  }

  lemma ResultShort(ret: int, hasPayload: bool)
    requires IsLong(ret)
    ensures Short(ResultFields(ret, hasPayload))
  {
    hide Decimal, SignedDecimal;
    NumberWidth(ret);
    NumberWidth(ErrnoOf(ret));
  }

  lemma PayloadShort(p: Option<PayloadRef>)
    requires p.Some? ==> IsLong(p.value.offset) && IsLong(p.value.length) && |p.value.sha256| <= 64
    ensures Short(PayloadFields(p))
  {
    hide Decimal, SignedDecimal;
    if p.Some? {
      NumberWidth(p.value.offset);
      NumberWidth(p.value.length);
    }
  }

  /** payload_json holds every reference whole. */
  lemma PayloadJsonWhole(p: Option<PayloadRef>)
    requires p.Some? ==> IsLong(p.value.offset) && IsLong(p.value.length) && |p.value.sha256| <= 64
    ensures |RenderAll(PayloadFields(p))| < 512 && PayloadJson(p) == RenderAll(PayloadFields(p))
  {
    hide RenderAll, TextLength, PayloadFields;
    PayloadShort(p);
    PayloadCount(p);
    TextLengthBound(PayloadFields(p));
    RenderLength(PayloadFields(p));
  }

  lemma PayloadCount(p: Option<PayloadRef>)
    ensures |PayloadFields(p)| <= 6
  {
    hide Decimal, SignedDecimal;
  }

  lemma ShortConcat(a: seq<Field>, b: seq<Field>)
    requires Short(a) && Short(b)
    ensures Short(a + b)
  {
  }

  /** What follows the header of a syscall body is short. */
  lemma CallPartShort(e: Event)
    requires Typed(e) && e.Syscall?
    ensures var rest := CallFields(e.entry) + ResultFields(e.ret, e.payload.Some?) + PayloadFields(e.payload);
            Short(rest) && |rest| <= 16
  {
    hide Short, CallFields, ResultFields, PayloadFields, IsHex;
    CallShort(e.entry);
    ResultShort(e.ret, e.payload.Some?);
    PayloadShort(e.payload);
    ShortConcat(CallFields(e.entry), ResultFields(e.ret, e.payload.Some?));
    ShortConcat(CallFields(e.entry) + ResultFields(e.ret, e.payload.Some?), PayloadFields(e.payload));
    PartSizes(e);
  }

  lemma SyscallBodyLength(e: Event)
    requires Typed(e) && e.Syscall?
    ensures |FullBody(e)| <= 2200 + |e.stamp.runId|
  {
    hide Header, CallFields, ResultFields, PayloadFields, RenderAll, TextLength, IsHex, SyscallName;
    var rest := CallFields(e.entry) + ResultFields(e.ret, e.payload.Some?) + PayloadFields(e.payload);
    var h := Header(e.stamp, "SYSCALL", SyscallName(e.entry.no), "exit");
    NameShort(e.entry.no);
    HeaderTexts(e.stamp, "SYSCALL", SyscallName(e.entry.no), "exit");
    CallPartShort(e);
    assert BodyFields(e) == h + rest;
    TextLengthOne(h + rest, 1);
    RenderLength(h + rest);
  }

  // ---------- the exact room of a process body ----------

  /** The chars of a process body that are the same in all of them, up to the target. */
  const PROCESS_FIXED := 141

  /** The chars its numbers take. */
  function Digits(s: Stamp): nat {
    |Decimal(s.seqNo)| + |Decimal(s.timeNs)| + 2 * |SignedDecimal(s.pid)|
  }

  lemma TextLeafLength(k: Key, raw: string)
    ensures |Text(k, raw).Print()| == |KeyText(k)| + 5 + |raw|
  {
    hide KeyText;
  }

  lemma IntLeafLength(k: Key, n: int)
    ensures |Int(k, n).Print()| == |KeyText(k)| + 3 + |SignedDecimal(n)|
  {
    hide KeyText, SignedDecimal;
  }

  /** Leaves in a row have a comma between each two. */
  function LeavesLength(ls: seq<Leaf>): nat {
    if ls == [] then 0 else |ls[0].Print()| + (if |ls| == 1 then 0 else 1) + LeavesLength(ls[1..])
  }

  lemma {:induction false} LeavesLengthIs(ls: seq<Leaf>)
    ensures |PrintLeaves(ls)| == LeavesLength(ls)
  {
    hide Leaf.Print;
    if ls != [] {
      LeavesLengthIs(ls[1..]);
    }
  }

  lemma LengthFirst(ls: seq<Leaf>)
    requires ls != []
    ensures LeavesLength(ls) == |ls[0].Print()| + (if |ls| == 1 then 0 else 1) + LeavesLength(ls[1..])
    ensures LeavesLength([]) == 0
  {
    hide Leaf.Print;
  }

  lemma FrontLength(ls: seq<Leaf>)
    requires |ls| == 4
    ensures LeavesLength(ls) == |ls[0].Print()| + |ls[1].Print()| + |ls[2].Print()| + |ls[3].Print()| + 3
  {
    hide Leaf.Print;
    LengthFirst(ls);
    LengthFirst(ls[1..]);
    LengthFirst(ls[2..]);
    LengthFirst(ls[3..]);
    assert ls[1..][1..] == ls[2..] && ls[2..][1..] == ls[3..] && ls[3..][1..] == [];
  }

  lemma {:induction false} LengthConcat(a: seq<Leaf>, b: seq<Leaf>)
    requires a != [] && b != []
    ensures LeavesLength(a + b) == LeavesLength(a) + 1 + LeavesLength(b)
  {
    hide Leaf.Print;
    if |a| == 1 {
      assert (a + b)[1..] == b;
    } else {
      assert (a + b)[1..] == a[1..] + b;
      LengthConcat(a[1..], b);
    }
  }

  lemma HeaderFrontLength(s: Stamp)
    ensures LeavesLength([Text(SchemaVersion, "adr.trace.v1"), Text(RunId, s.runId), Int(Seq, s.seqNo),
              Int(TimeNs, s.timeNs)])
         == 61 + |s.runId| + |Decimal(s.seqNo)| + |Decimal(s.timeNs)|
  {
    hide Decimal;
    var ls := [Text(SchemaVersion, "adr.trace.v1"), Text(RunId, s.runId), Int(Seq, s.seqNo), Int(TimeNs, s.timeNs)];
    FrontLength(ls);
    TextLeafLength(SchemaVersion, "adr.trace.v1");
    TextLeafLength(RunId, s.runId);
    IntLeafLength(Seq, s.seqNo);
    IntLeafLength(TimeNs, s.timeNs);
    hide Leaf.Print, LeavesLength;
    assert |KeyText(SchemaVersion)| == 14 && |KeyText(RunId)| == 6 && |KeyText(Seq)| == 3 && |KeyText(TimeNs)| == 7;
  }

  lemma HeaderMiddleLength(s: Stamp, name: string)
    ensures LeavesLength([Int(Pid, s.pid), Int(Tid, s.pid), Text(Etype, "PROCESS"), Text(Name, name)])
         == 41 + 2 * |SignedDecimal(s.pid)| + |name|
  {
    hide SignedDecimal;
    var ls := [Int(Pid, s.pid), Int(Tid, s.pid), Text(Etype, "PROCESS"), Text(Name, name)];
    FrontLength(ls);
    IntLeafLength(Pid, s.pid);
    IntLeafLength(Tid, s.pid);
    TextLeafLength(Etype, "PROCESS");
    TextLeafLength(Name, name);
    hide Leaf.Print, LeavesLength;
    assert |KeyText(Pid)| == 3 && |KeyText(Tid)| == 3 && |KeyText(Etype)| == 5 && |KeyText(Name)| == 4;
  }

  lemma PhaseLength()
    ensures LeavesLength([Text(Phase, "instant")]) == 17
  {
    TextLeafLength(Phase, "instant");
    hide Leaf.Print;
    assert |KeyText(Phase)| == 5;
    assert [Text(Phase, "instant")][1..] == [];
  }

  lemma TargetHeadLength()
    ensures |TargetHead()| == 18
  {
    assert |KeyText(EventText.Args)| == 4 && |KeyText(Target)| == 6;
  }

  lemma ProcessHeadLength(s: Stamp, name: string)
    ensures |ProcessHead(s, name)| == PROCESS_FIXED + |s.runId| + |name| + Digits(s)
  {
    hide Decimal, SignedDecimal, TargetHead;
    var a := [Text(SchemaVersion, "adr.trace.v1"), Text(RunId, s.runId), Int(Seq, s.seqNo), Int(TimeNs, s.timeNs)];
    var b := [Int(Pid, s.pid), Int(Tid, s.pid), Text(Etype, "PROCESS"), Text(Name, name)];
    var c := [Text(Phase, "instant")];
    HeaderFrontLength(s);
    HeaderMiddleLength(s, name);
    PhaseLength();
    TargetHeadLength();
    LengthConcat(a, b);
    LengthConcat(a + b, c);
    assert HeaderLeaves(s, s.pid, "PROCESS", name, "instant") == a + b + c;
    LeavesLengthIs(a + b + c);
    hide LeavesLength, PrintLeaves, HeaderLeaves;
    SizeOfHead(PrintLeaves(a + b + c), TargetHead());
  }

  lemma SizeOfHead(h: string, t: string)
    ensures |"{" + h + "," + t| == |h| + |t| + 2
  {
  }

  /** A process body is printed whole exactly when its texts and digits leave room for it. */
  lemma ProcessRoom(e: Event)
    requires e.Process?
    ensures Fits(e) <==> PROCESS_FIXED + |e.stamp.runId| + |e.name| + Digits(e.stamp) + |e.target| + 2 < 4096
  {
    hide ProcessHead, Digits, Body;
    BodyIsFront(e);
    ProcessBodyPrints(e);
    ProcessHeadLength(e.stamp, e.name);
    hide FullBody;
    SizeOfBody(ProcessHead(e.stamp, e.name), e.target);
  }

  lemma SizeOfBody(h: string, t: string)
    ensures |h + t + "\"}"| == |h| + |t| + 2
  {
  }

  /** What run_id and target may take together when name and numbers are at their longest. */
  const ROOM := 4093 - PROCESS_FIXED - 14 - 62

  lemma DigitsBound(s: Stamp)
    requires StampTyped(s)
    ensures Digits(s) <= 62
  {
    hide Decimal, SignedDecimal;
    NumberWidth(s.seqNo);
    NumberWidth(s.timeNs);
    PrintedWidth(s.pid);
  }

  /** A number of 10^k or more prints in more than k digits. */
  lemma {:induction false} DecimalAtLeast(n: nat, k: nat)
    requires n >= Pow10(k)
    ensures |Decimal(n)| > k
  {
    if k > 0 {
      assert n / 10 >= Pow10(k - 1);
      DecimalAtLeast(n / 10, k - 1);
    }
  }

  lemma WidestDigits(runId: string) returns (s: Stamp)
    ensures StampTyped(s) && s.runId == runId && Digits(s) == 62
  {
    s := Stamp(runId, ULONG_MAX, ULONG_MAX, -0x8000_0000);
    assert SignedDecimal(s.pid) == "-" + Decimal(0x8000_0000);
    hide Decimal, SignedDecimal;
    Pow10Of20();
    assert Pow10(20) == 10 * Pow10(19) && Pow10(10) == 10 * Pow10(9);
    DecimalAtLeast(ULONG_MAX, 19);
    DecimalAtLeast(0x8000_0000, 9);
    DigitsBound(s);
  }

  lemma NameLength(name: string)
    requires TracerName(name)
    ensures |name| <= 14
  {
  }

  /** The process events of a run are all printed whole, whatever the clock, the pid and the numbers are,
      exactly when run_id and target keep to the room. */
  lemma RoomExactly(runId: string, target: string)
    ensures (forall s: Stamp, name: string {:trigger Process(s, name, target)} ::
              StampTyped(s) && s.runId == runId && TracerName(name) ==> Fits(Process(s, name, target)))
            <==> |runId| + |target| <= ROOM
  {
    hide Fits, Digits, TracerName;
    if |runId| + |target| <= ROOM {
      forall s: Stamp, name: string | StampTyped(s) && s.runId == runId && TracerName(name)
        ensures Fits(Process(s, name, target))
      {
        ProcessRoom(Process(s, name, target));
        DigitsBound(s);
        NameLength(name);
      }
    } else {
      var s := WidestDigits(runId);
      ProcessRoom(Process(s, "program_signal", target));
      assert TracerName("program_signal") by { SignalIsName(); }
      assert !Fits(Process(s, "program_signal", target));
    }
  }

  lemma SignalIsName()
    ensures TracerName("program_signal") && |"program_signal"| == 14
  {
  }

  /** No reference and no syscall body is cut, process bodies exactly when there is no room; and whatever is
      printed as a body is hashed as a whole, behind any prev_hash. */
  lemma NothingTruncated(e: Event)
    requires Typed(e) && |e.stamp.runId| <= MAX_RUN_ID
    ensures e.Syscall? ==> Fits(e) && PayloadJson(e.payload) == RenderAll(PayloadFields(e.payload))
    ensures e.Process? ==>
              (Fits(e) <==> PROCESS_FIXED + |e.stamp.runId| + |e.name| + Digits(e.stamp) + |e.target| + 2 < 4096)
    ensures |Body(e)| <= MATERIAL_SIZE - 66
    ensures forall h: string :: |h| <= 64 ==> Material(h, Body(e)) == h + "|" + Body(e)
  {
    hide FullBody, Body, Digits, IsHex, RenderAll, PayloadFields, PayloadJson;
    BodyIsFront(e);
    if e.Syscall? {
      PayloadJsonWhole(e.payload);
      SyscallBodyLength(e);
    } else {
      ProcessRoom(e);
    }
  }

  /** A hook line with a short run_id is always written, and written whole. */
  lemma HookAlwaysWritten(h: HookEvent)
    requires |h.runId| <= MAX_RUN_ID && IsULong(h.seqNo) && IsULong(h.timeNs) && IsInt(h.pid) && IsLong(h.tid)
    requires |h.name| <= 64 && |h.phase| <= 64 && |h.objectId| <= 64 && IsULong(h.value) && IsInt(h.ret)
    ensures HookLine(h).Some?
  {
    hide RenderAll, TextLength, Hash.HexDigest, HookFields;
    HookTexts(h);
    var fs := HookFields(h);
    TextLengthOne(fs, 1);
    RenderLength(fs);
    var chain := ChainFields("hook", Hash.HexDigest(Bytes(HookBody(h))));
    TextLengthBound(chain);
    RenderLength(chain);
  }

  lemma HookTexts(h: HookEvent)
    requires IsULong(h.seqNo) && IsULong(h.timeNs) && IsInt(h.pid) && IsLong(h.tid)
    requires |h.name| <= 64 && |h.phase| <= 64 && |h.objectId| <= 64 && IsULong(h.value) && IsInt(h.ret)
    ensures var fs := HookFields(h);
            && |fs| == 14 && fs[1].text == h.runId && (forall k :: 0 <= k < 14 && k != 1 ==> |fs[k].text| <= 64)
            && forall k :: 0 <= k < 14 && fs[k].Str? ==> |fs[k].sep| == 1
  {
    hide Decimal, SignedDecimal;
    NumberWidth(h.seqNo);
    NumberWidth(h.timeNs);
    NumberWidth(h.pid);
    NumberWidth(h.tid);
    NumberWidth(h.value);
    NumberWidth(h.ret);
    NumberWidth(if h.ret < 0 then -h.ret else 0);
  }
}
