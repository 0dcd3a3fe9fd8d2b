/** The lines both tracers and the hook print, as JSON objects. */
module EventJson {
  import opened CText
  import opened EventText
  import opened TraceEvent
  import opened TraceLog
  import opened LineJson

  // ---------- the members of a line ----------

  function HeaderLeaves(s: Stamp, tid: int, etype: string, name: string, phase: string): seq<Leaf> {
    [Text(SchemaVersion, "adr.trace.v1"), Text(RunId, s.runId), Int(Seq, s.seqNo), Int(TimeNs, s.timeNs),
     Int(Pid, s.pid), Int(Tid, tid), Text(Etype, etype), Text(Name, name), Text(Phase, phase)]
  }

  function CallLeaves(e: Entry): seq<Leaf> {
    [Int(SyscallNo, e.no), Int(A0, e.args[0]), Int(A1, e.args[1]), Int(A2, e.args[2]), Int(A3, e.args[3]),
     Int(A4, e.args[4]), Int(A5, e.args[5])]
  }

  function PayloadLeaves(r: PayloadRef): seq<Leaf> {
    [Text(File, "payload.bin"), Int(Offset, r.offset), Int(Length, r.length), Text(Sha256Key, r.sha256),
     Text(Encoding, "raw")]
  }

  function ResultItems(ret: int, errno: int): seq<Item> { [One(Int(Ret, ret)), One(Int(Errno, errno))] }

  function PayloadItems(p: Option<PayloadRef>): seq<Item> {
    if p.Some? then [Group(PayloadRefKey, PayloadLeaves(p.value))] else []
  }

  function ChainItems(prevHash: string, eventHash: string): seq<Item> {
    [One(Text(PrevHash, prevHash)), One(Text(EventHash, eventHash))]
  }

  function EventItems(e: Event): seq<Item> {
    match e
    case Process(s, name, target) =>
      Ones(HeaderLeaves(s, s.pid, "PROCESS", name, "instant")) + [Group(EventText.Args, [Text(Target, target)])]
    case Syscall(s, entry, ret, p) =>
      Ones(HeaderLeaves(s, s.pid, "SYSCALL", SyscallName(entry.no), "exit"))
      + [Group(EventText.Args, CallLeaves(entry))]
      + ResultItems(ret, ErrnoOf(ret)) + PayloadItems(p)
  }

  function HookStamp(h: HookEvent): Stamp { Stamp(h.runId, h.seqNo, h.timeNs, h.pid) }

  function HookErrno(h: HookEvent): int { if h.ret < 0 then -h.ret else 0 }

  function HookItems(h: HookEvent): seq<Item> {
    Ones(HookLeaves(h)) + [Group(EventText.Args, [Int(h.key, h.value)])] + ResultItems(h.ret, HookErrno(h))
  }

  // ---------- printing in a row ----------

  lemma {:induction false} ItemsConcat(xs: seq<Item>, ys: seq<Item>)
    requires xs != [] && ys != []
    ensures PrintItems(xs + ys) == PrintItems(xs) + "," + PrintItems(ys)
  {
    hide Item.Print;
    if |xs| == 1 {
      assert (xs + ys)[1..] == ys;
    } else {
      assert (xs + ys)[1..] == xs[1..] + ys;
      ItemsConcat(xs[1..], ys);
    }
  }

  lemma {:induction false} LeavesConcat(ls: seq<Leaf>, l: Leaf)
    requires ls != []
    ensures PrintLeaves(ls + [l]) == PrintLeaves(ls) + "," + l.Print()
  {
    hide Leaf.Print;
    if |ls| == 1 {
      assert (ls + [l])[1..] == [l];
    } else {
      assert (ls + [l])[1..] == ls[1..] + [l];
      LeavesConcat(ls[1..], l);
    }
  }

  lemma {:induction false} OnesPrint(ls: seq<Leaf>)
    ensures PrintItems(Ones(ls)) == PrintLeaves(ls)
  {
    hide Leaf.Print;
    if ls != [] {
      assert Ones(ls)[1..] == Ones(ls[1..]);
      OnesPrint(ls[1..]);
    }
  }

  /** The field prints the leaf and a comma. */
  predicate Prints(f: Field, l: Leaf) { f.Render() == l.Print() + "," }

  lemma {:induction false} FieldsPrint(fs: seq<Field>, ls: seq<Leaf>)
    requires |fs| == |ls| > 0 && forall i :: 0 <= i < |fs| ==> Prints(fs[i], ls[i])
    ensures RenderAll(fs) == PrintLeaves(ls) + ","
  {
    hide Field.Render, Leaf.Print;
    assert Prints(fs[0], ls[0]);
    if |fs| == 1 {
      assert fs[1..] == [];
      assert RenderAll(fs) == fs[0].Render() + "";
    } else {
      forall i | 0 <= i < |fs[1..]|
        ensures Prints(fs[1..][i], ls[1..][i])
      {
        assert Prints(fs[i + 1], ls[i + 1]);
      }
      FieldsPrint(fs[1..], ls[1..]);
    }
  }

  lemma TextPrints(k: Key, raw: string)
    ensures Prints(Str(k, raw, ","), Text(k, raw))
  {
    hide KeyText;
  }

  lemma IntPrints(k: Key, n: int)
    ensures Prints(Num(k, SignedDecimal(n) + ","), Int(k, n))
    ensures n >= 0 ==> Prints(Num(k, Decimal(n) + ","), Int(k, n))
  {
    hide KeyText, Decimal;
  }

  lemma HeaderPrints(s: Stamp, etype: string, name: string, phase: string)
    ensures RenderAll(Header(s, etype, name, phase)) == PrintLeaves(HeaderLeaves(s, s.pid, etype, name, phase)) + ","
  {
    hide Prints, RenderAll, PrintLeaves, Decimal, SignedDecimal;
    TextPrints(SchemaVersion, "adr.trace.v1");
    TextPrints(RunId, s.runId);
    IntPrints(Seq, s.seqNo);
    IntPrints(TimeNs, s.timeNs);
    IntPrints(Pid, s.pid);
    IntPrints(Tid, s.pid);
    TextPrints(Etype, etype);
    TextPrints(Name, name);
    TextPrints(Phase, phase);
    FieldsPrint(Header(s, etype, name, phase), HeaderLeaves(s, s.pid, etype, name, phase));
  }

  lemma JoinGroup(k: string, a: string, b: string, sep: string)
    ensures k + (a + ",") + (b + "}" + sep) == k + (a + "," + b) + "}" + sep
  {
  }

  lemma RenderThree(x: Field, fs: seq<Field>, y: Field)
    ensures RenderAll([x] + fs + [y]) == x.Render() + RenderAll(fs) + y.Render()
  {
    hide Field.Render;
    RenderConcat([x], fs);
    RenderConcat([x] + fs, [y]);
    RenderOne(x);
    RenderOne(y);
  }

  lemma RenderTwo(x: Field, y: Field)
    ensures RenderAll([x, y]) == x.Render() + y.Render()
  {
    hide Field.Render;
    RenderConcat([x], [y]);
    RenderOne(x);
    RenderOne(y);
    assert [x] + [y] == [x, y];
  }

  lemma PrintTwo(x: Leaf, y: Leaf)
    ensures PrintItems([One(x), One(y)]) == x.Print() + "," + y.Print()
  {
    hide Leaf.Print;
    assert [One(x), One(y)][1..] == [One(y)];
    PrintOne(One(y));
  }

  lemma PrintOne(x: Item)
    ensures PrintItems([x]) == x.Print()
  {
    hide Item.Print;
    assert x.Print() + "" == x.Print();
  }

  /** An object: its key and brace, all leaves but the last with commas, the last with the brace. */
  lemma GroupPrints(k: Key, fs: seq<Field>, ls: seq<Leaf>, last: Field, l: Leaf, sep: string)
    requires |fs| == |ls| > 0 && forall i :: 0 <= i < |fs| ==> Prints(fs[i], ls[i])
    requires last.Render() == l.Print() + "}" + sep
    ensures RenderAll([Num(k, "{")] + fs + [last]) == Group(k, ls + [l]).Print() + sep
  {
    FieldsPrint(fs, ls);
    LeavesConcat(ls, l);
    RenderThree(Num(k, "{"), fs, last);
    JoinGroup(Num(k, "{").Render(), PrintLeaves(ls), l.Print(), sep);
    GroupHead(k, ls + [l]);
    hide Field.Render, Leaf.Print, Item.Print, PrintLeaves, RenderAll, KeyText, Prints;
  }

  lemma GroupHead(k: Key, ls: seq<Leaf>)
    ensures Group(k, ls).Print() == Num(k, "{").Render() + PrintLeaves(ls) + "}"
  {
    hide KeyText, PrintLeaves;
    assert "\"" + KeyText(k) + "\":{" == "\"" + KeyText(k) + "\":" + "{";
  }

  lemma RenderOne(f: Field)
    ensures RenderAll([f]) == f.Render()
  {
    assert [f][1..] == [];
  }

  lemma LastInt(k: Key, n: nat, sep: string)
    ensures Num(k, Decimal(n) + "}" + sep).Render() == Int(k, n).Print() + "}" + sep
  {
    hide KeyText, Decimal;
  }

  lemma CallPrints(e: Entry)
    ensures RenderAll(CallFields(e)) == Group(EventText.Args, CallLeaves(e)).Print() + ","
  {
    hide Prints, RenderAll, Leaf.Print, Field.Render, Item.Print, Decimal, SignedDecimal;
    IntPrints(SyscallNo, e.no);
    IntPrints(A0, e.args[0]);
    IntPrints(A1, e.args[1]);
    IntPrints(A2, e.args[2]);
    IntPrints(A3, e.args[3]);
    IntPrints(A4, e.args[4]);
    var all, ls := CallFields(e), CallLeaves(e);
    var last, l := Num(A5, Decimal(e.args[5]) + "},"), Int(A5, e.args[5]);
    LastInt(A5, e.args[5], ",");
    assert Decimal(e.args[5]) + "}" + "," == Decimal(e.args[5]) + "},";
    GroupPrints(EventText.Args, all[1..7], ls[..6], last, l, ",");
    assert [Num(EventText.Args, "{")] + all[1..7] + [last] == all && ls[..6] + [l] == ls;
  }

  lemma PayloadPrints(r: PayloadRef)
    ensures RenderAll(PayloadFields(Some(r))) == Group(PayloadRefKey, PayloadLeaves(r)).Print()
  {
    hide Prints, RenderAll, Leaf.Print, Field.Render, Item.Print, Decimal, SignedDecimal;
    TextPrints(File, "payload.bin");
    IntPrints(Offset, r.offset);
    IntPrints(Length, r.length);
    TextPrints(Sha256Key, r.sha256);
    var all, ls := PayloadFields(Some(r)), PayloadLeaves(r);
    var last, l := Str(Encoding, "raw", "}"), Text(Encoding, "raw");
    LastText(Encoding, "raw");
    GroupPrints(PayloadRefKey, all[1..5], ls[..4], last, l, "");
    assert [Num(PayloadRefKey, "{")] + all[1..5] + [last] == all && ls[..4] + [l] == ls;
    assert Group(PayloadRefKey, ls).Print() + "" == Group(PayloadRefKey, ls).Print();
  }

  lemma LastText(k: Key, raw: string)
    ensures Str(k, raw, "}").Render() == Text(k, raw).Print() + "}"
    ensures Str(k, raw, "}").Render() == Text(k, raw).Print() + "}" + ""
  {
    hide KeyText;
  }

  lemma LastNumber(k: Key, n: int, sep: string)
    ensures Num(k, SignedDecimal(n) + sep).Render() == Int(k, n).Print() + sep
  {
    hide KeyText, SignedDecimal;
  }

  lemma ResultPrints(ret: int, errno: int, sep: string)
    ensures RenderAll([Num(Ret, SignedDecimal(ret) + ","), Num(Errno, SignedDecimal(errno) + sep)])
         == PrintItems(ResultItems(ret, errno)) + sep
  {
    IntPrints(Ret, ret);
    LastNumber(Errno, errno, sep);
    RenderTwo(Num(Ret, SignedDecimal(ret) + ","), Num(Errno, SignedDecimal(errno) + sep));
    PrintTwo(Int(Ret, ret), Int(Errno, errno));
    hide Field.Render, Leaf.Print, PrintItems, RenderAll, SignedDecimal;
  }

  lemma ChainPrints(prevHash: string, eventHash: string)
    ensures RenderAll(ChainFields(prevHash, eventHash)) == PrintItems(ChainItems(prevHash, eventHash)) + "}"
  {
    TextPrints(PrevHash, prevHash);
    LastText(EventHash, eventHash);
    RenderTwo(Str(PrevHash, prevHash, ","), Str(EventHash, eventHash, "}"));
    PrintTwo(Text(PrevHash, prevHash), Text(EventHash, eventHash));
    hide Field.Render, Leaf.Print, PrintItems, RenderAll;
  }

  // ---------- whole bodies and lines ----------

  lemma JoinParts(h: string, a: string, r: string, p: string)
    ensures h + "," + (a + ",") + (r + ",") + p == h + "," + a + "," + r + "," + p
    ensures h + "," + (a + ",") + (r + "") + "" == h + "," + a + "," + r
  {
  }

  lemma SyscallPartsRender(e: Event)
    requires e.Syscall?
    ensures RenderAll(BodyFields(e)) == RenderAll(Header(e.stamp, "SYSCALL", SyscallName(e.entry.no), "exit"))
            + RenderAll(CallFields(e.entry)) + RenderAll(ResultFields(e.ret, e.payload.Some?))
            + RenderAll(PayloadFields(e.payload))
  {
    hide RenderAll, Header, CallFields, ResultFields, PayloadFields, SyscallName;
    var h, c := Header(e.stamp, "SYSCALL", SyscallName(e.entry.no), "exit"), CallFields(e.entry);
    var r, p := ResultFields(e.ret, e.payload.Some?), PayloadFields(e.payload);
    RenderConcat(h, c);
    RenderConcat(h + c, r);
    RenderConcat(h + c + r, p);
  }

  lemma SyscallItemsPrint(e: Event)
    requires e.Syscall?
    ensures var hl := HeaderLeaves(e.stamp, e.stamp.pid, "SYSCALL", SyscallName(e.entry.no), "exit");
            var front := PrintLeaves(hl) + "," + Group(EventText.Args, CallLeaves(e.entry)).Print() + ","
                         + PrintItems(ResultItems(e.ret, ErrnoOf(e.ret)));
            PrintItems(EventItems(e)) ==
            if e.payload.None? then front
            else front + "," + Group(PayloadRefKey, PayloadLeaves(e.payload.value)).Print()
  {
    hide PrintItems, PrintLeaves, Item.Print, HeaderLeaves, CallLeaves, PayloadLeaves, SyscallName, ErrnoOf;
    var hl := HeaderLeaves(e.stamp, e.stamp.pid, "SYSCALL", SyscallName(e.entry.no), "exit");
    var a, r := [Group(EventText.Args, CallLeaves(e.entry))], ResultItems(e.ret, ErrnoOf(e.ret));
    HeaderNonempty(e.stamp, e.stamp.pid, "SYSCALL", SyscallName(e.entry.no), "exit");
    OnesPrint(hl);
    PrintOne(a[0]);
    ItemsConcat(Ones(hl), a);
    ItemsConcat(Ones(hl) + a, r);
    if e.payload.Some? {
      PrintOne(PayloadItems(e.payload)[0]);
      ItemsConcat(Ones(hl) + a + r, PayloadItems(e.payload));
    } else {
      assert EventItems(e) == Ones(hl) + a + r;
    }
  }

  lemma SyscallBodyPrints(e: Event)
    requires e.Syscall?
    ensures FullBody(e) == "{" + PrintItems(EventItems(e))
  {
    var s, name := e.stamp, SyscallName(e.entry.no);
    SyscallPartsRender(e);
    SyscallItemsPrint(e);
    HeaderPrints(s, "SYSCALL", name, "exit");
    CallPrints(e.entry);
    ResultPrints(e.ret, ErrnoOf(e.ret), if e.payload.Some? then "," else "");
    if e.payload.Some? {
      PayloadPrints(e.payload.value);
    } else {
      NothingRenders();
    }
    JoinParts(PrintLeaves(HeaderLeaves(s, s.pid, "SYSCALL", name, "exit")),
              Group(EventText.Args, CallLeaves(e.entry)).Print(), PrintItems(ResultItems(e.ret, ErrnoOf(e.ret))),
              if e.payload.Some? then Group(PayloadRefKey, PayloadLeaves(e.payload.value)).Print() else "");
    hide RenderAll, PrintItems, PrintLeaves, Item.Print, Header, CallFields, CallLeaves, HeaderLeaves, PayloadLeaves;
    hide SyscallName, ErrnoOf, SignedDecimal, EventItems, BodyFields;
  }

  lemma NothingRenders()
    ensures RenderAll([]) == ""
  {
  }

  lemma HeaderNonempty(s: Stamp, tid: int, etype: string, name: string, phase: string)
    ensures |HeaderLeaves(s, tid, etype, name, phase)| == 9
  {
  }

  /** The opening of args up to the text of the target. */
  function TargetHead(): string { "\"" + KeyText(EventText.Args) + "\":{" + ("\"" + KeyText(Target) + "\":\"") }

  /** A process body up to the text of its target. */
  function ProcessHead(s: Stamp, name: string): string {
    "{" + PrintLeaves(HeaderLeaves(s, s.pid, "PROCESS", name, "instant")) + "," + TargetHead()
  }

  lemma JoinTarget(a: string, t: string, x: string)
    ensures a + (t + x + "\"}") == a + t + x + "\"}" && a + (t + x + "\"") + "}" == a + t + x + "\"}"
    ensures a + t == a + (t + "")
  {
    assert t + "" == t;
  }

  lemma TargetField(target: string)
    ensures Str(Target, target, "}").Render() == "\"" + KeyText(Target) + "\":\"" + target + "\"}"
  {
    hide KeyText;
  }

  lemma TargetLeaf(target: string)
    ensures Text(Target, target).Print() == "\"" + KeyText(Target) + "\":\"" + target + "\""
  {
    hide KeyText;
  }

  lemma TargetHeadParts()
    ensures TargetHead() == Num(EventText.Args, "{").Render() + ("\"" + KeyText(Target) + "\":\"")
  {
    hide KeyText;
  }

  lemma TargetPrints(target: string)
    ensures Group(EventText.Args, [Text(Target, target)]).Print() == TargetHead() + target + "\"}"
    ensures RenderAll([Num(EventText.Args, "{"), Str(Target, target, "}")]) == TargetHead() + target + "\"}"
  {
    LeafAlone(Text(Target, target));
    TargetField(target);
    TargetLeaf(target);
    TargetHeadParts();
    GroupHead(EventText.Args, [Text(Target, target)]);
    RenderTwo(Num(EventText.Args, "{"), Str(Target, target, "}"));
    JoinTarget(Num(EventText.Args, "{").Render(), "\"" + KeyText(Target) + "\":\"", target);
    hide RenderAll, PrintLeaves, KeyText, Field.Render, Leaf.Print, Item.Print, TargetHead;
  }

  lemma ProcessPartsRender(e: Event)
    requires e.Process?
    ensures RenderAll(BodyFields(e)) ==
            RenderAll(Header(e.stamp, "PROCESS", e.name, "instant"))
            + RenderAll([Num(EventText.Args, "{"), Str(Target, e.target, "}")])
  {
    hide RenderAll, Header;
    RenderConcat(Header(e.stamp, "PROCESS", e.name, "instant"), [Num(EventText.Args, "{"), Str(Target, e.target, "}")]);
  }

  lemma ProcessItemsPrint(e: Event)
    requires e.Process?
    ensures PrintItems(EventItems(e)) ==
            PrintLeaves(HeaderLeaves(e.stamp, e.stamp.pid, "PROCESS", e.name, "instant")) + ","
            + Group(EventText.Args, [Text(Target, e.target)]).Print()
  {
    hide PrintItems, PrintLeaves, HeaderLeaves, Item.Print;
    var hl := HeaderLeaves(e.stamp, e.stamp.pid, "PROCESS", e.name, "instant");
    var g := Group(EventText.Args, [Text(Target, e.target)]);
    HeaderNonempty(e.stamp, e.stamp.pid, "PROCESS", e.name, "instant");
    OnesPrint(hl);
    ItemsConcat(Ones(hl), [g]);
    PrintOne(g);
  }

  lemma JoinProcess(h: string, t: string, x: string)
    ensures "{" + ((h + ",") + (t + x + "\"}")) == "{" + h + "," + t + x + "\"}"
    ensures "{" + (h + "," + (t + x + "\"}")) == "{" + h + "," + t + x + "\"}"
  {
  }

  lemma ProcessBodyPrints(e: Event)
    requires e.Process?
    ensures FullBody(e) == ProcessHead(e.stamp, e.name) + e.target + "\"}"
    ensures FullBody(e) == "{" + PrintItems(EventItems(e))
  {
    var hl := HeaderLeaves(e.stamp, e.stamp.pid, "PROCESS", e.name, "instant");
    ProcessPartsRender(e);
    ProcessItemsPrint(e);
    HeaderPrints(e.stamp, "PROCESS", e.name, "instant");
    TargetPrints(e.target);
    JoinProcess(PrintLeaves(hl), TargetHead(), e.target);
    hide RenderAll, PrintItems, Header, HeaderLeaves, PrintLeaves, Item.Print, TargetHead, BodyFields, EventItems;
  }

  lemma LeafAlone(l: Leaf)
    ensures PrintLeaves([l]) == l.Print()
  {
  }

  lemma BodyPrints(e: Event)
    ensures FullBody(e) == "{" + PrintItems(EventItems(e)) && EventItems(e) != []
  {
    hide FullBody, PrintItems, HeaderLeaves, CallLeaves, PayloadLeaves;
    if e.Syscall? {
      SyscallBodyPrints(e);
      HeaderNonempty(e.stamp, e.stamp.pid, "SYSCALL", SyscallName(e.entry.no), "exit");
    } else {
      ProcessBodyPrints(e);
      HeaderNonempty(e.stamp, e.stamp.pid, "PROCESS", e.name, "instant");
    }
  }

  /** A whole body, the chain fields and the newline are one printed object. */
  lemma LinePrints(xs: seq<Item>, body: string, prevHash: string, eventHash: string)
    requires xs != [] && body == "{" + PrintItems(xs)
    ensures LineText(body, prevHash, eventHash) == "{" + PrintItems(xs + ChainItems(prevHash, eventHash)) + "}" + "\n"
  {
    hide RenderAll, PrintItems;
    ChainPrints(prevHash, eventHash);
    ItemsConcat(xs, ChainItems(prevHash, eventHash));
  }

  lemma HookGroupPrints(k: Key, value: nat)
    ensures RenderAll([Num(EventText.Args, "{"), Num(k, Decimal(value) + "},")])
         == Group(EventText.Args, [Int(k, value)]).Print() + ","
  {
    LastInt(k, value, ",");
    assert Decimal(value) + "}" + "," == Decimal(value) + "},";
    RenderTwo(Num(EventText.Args, "{"), Num(k, Decimal(value) + "},"));
    GroupHead(EventText.Args, [Int(k, value)]);
    LeafAlone(Int(k, value));
    hide Field.Render, Leaf.Print, Item.Print, PrintLeaves, RenderAll, KeyText, Decimal;
  }

  lemma HookPartsRender(h: HookEvent)
    ensures RenderAll(HookFields(h)) == RenderAll(HookFields(h)[..10])
            + RenderAll([Num(EventText.Args, "{"), Num(h.key, Decimal(h.value) + "},")])
            + RenderAll([Num(Ret, SignedDecimal(h.ret) + ","), Num(Errno, SignedDecimal(HookErrno(h)) + "")])
  {
    hide RenderAll, Decimal, SignedDecimal;
    var fs := HookFields(h);
    var a := [Num(EventText.Args, "{"), Num(h.key, Decimal(h.value) + "},")];
    var r := [Num(Ret, SignedDecimal(h.ret) + ","), Num(Errno, SignedDecimal(HookErrno(h)) + "")];
    assert SignedDecimal(HookErrno(h)) + "" == SignedDecimal(HookErrno(h));
    assert fs == fs[..10] + a + r;
    RenderConcat(fs[..10], a);
    RenderConcat(fs[..10] + a, r);
  }

  function HookLeaves(h: HookEvent): seq<Leaf> {
    HeaderLeaves(HookStamp(h), h.tid, "SYNC", h.name, h.phase) + [Text(ObjectId, h.objectId)]
  }

  lemma HookItemsPrint(h: HookEvent)
    ensures HookItems(h) != []
    ensures PrintItems(HookItems(h)) ==
            PrintLeaves(HookLeaves(h)) + "," + Group(EventText.Args, [Int(h.key, h.value)]).Print() + ","
            + PrintItems(ResultItems(h.ret, HookErrno(h)))
  {
    hide PrintItems, PrintLeaves, HeaderLeaves, Item.Print;
    var hl, g := HookLeaves(h), Group(EventText.Args, [Int(h.key, h.value)]);
    OnesPrint(hl);
    PrintOne(g);
    ItemsConcat(Ones(hl), [g]);
    ItemsConcat(Ones(hl) + [g], ResultItems(h.ret, HookErrno(h)));
  }

  lemma HookBodyPrints(h: HookEvent)
    ensures HookBody(h) == "{" + PrintItems(HookItems(h)) && HookItems(h) != []
  {
    HookPartsRender(h);
    HookHeaderPrints(h);
    HookItemsPrint(h);
    HookGroupPrints(h.key, h.value);
    ResultPrints(h.ret, HookErrno(h), "");
    JoinParts(PrintLeaves(HookLeaves(h)), Group(EventText.Args, [Int(h.key, h.value)]).Print(),
              PrintItems(ResultItems(h.ret, HookErrno(h))), "");
    hide RenderAll, PrintItems, PrintLeaves, HookFields, HeaderLeaves, HookLeaves, HookItems, SignedDecimal, Item.Print;
  }

  lemma HookHeaderPrints(h: HookEvent)
    ensures RenderAll(HookFields(h)[..10]) == PrintLeaves(HookLeaves(h)) + ","
  {
    hide Prints, RenderAll, PrintLeaves, Decimal, SignedDecimal;
    TextPrints(SchemaVersion, "adr.trace.v1");
    TextPrints(RunId, h.runId);
    IntPrints(Seq, h.seqNo);
    IntPrints(TimeNs, h.timeNs);
    IntPrints(Pid, h.pid);
    IntPrints(Tid, h.tid);
    TextPrints(Etype, "SYNC");
    TextPrints(Name, h.name);
    TextPrints(Phase, h.phase);
    TextPrints(ObjectId, h.objectId);
    FieldsPrint(HookFields(h)[..10], HookLeaves(h));
  }
}
