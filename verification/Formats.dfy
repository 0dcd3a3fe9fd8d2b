/** The lines as the format strings of the tracers and of the hook spell them, member by member. */
module Formats {
  import opened CText
  import opened EventText
  import opened TraceEvent
  import opened TraceLog
  import opened LineJson
  import opened EventJson
  import opened TraceBounds
  import Hash
  import HashChain

  // ---------- members, spelled out ----------

  function Commas(parts: seq<string>): string {
    if parts == [] then "" else parts[0] + if |parts| == 1 then "" else "," + Commas(parts[1..])
  }

  /** "key":"%s" */
  function S(key: string, value: string): string { "\"" + key + "\":\"" + value + "\"" }

  /** "key":%d */
  function N(key: string, digits: string): string { "\"" + key + "\":" + digits }

  /** "key":{...} */
  function G(key: string, parts: seq<string>): string { "\"" + key + "\":{" + Commas(parts) + "}" }

  function LeafTexts(ls: seq<Leaf>): (r: seq<string>)
    ensures |r| == |ls| && forall i :: 0 <= i < |r| ==> r[i] == ls[i].Print()
  {
    seq(|ls|, i requires 0 <= i < |ls| => ls[i].Print())
  }

  lemma {:induction false} LeavesAreCommas(ls: seq<Leaf>)
    ensures PrintLeaves(ls) == Commas(LeafTexts(ls))
  {
    hide Leaf.Print;
    if ls != [] {
      LeavesAreCommas(ls[1..]);
      assert LeafTexts(ls)[1..] == LeafTexts(ls[1..]);
    }
  }

  function ItemTexts(xs: seq<Item>): (r: seq<string>)
    ensures |r| == |xs| && forall i :: 0 <= i < |r| ==> r[i] == xs[i].Print()
  {
    seq(|xs|, i requires 0 <= i < |xs| => xs[i].Print())
  }

  lemma {:induction false} ItemsAreCommas(xs: seq<Item>)
    ensures PrintItems(xs) == Commas(ItemTexts(xs))
  {
    hide Item.Print;
    if xs != [] {
      ItemsAreCommas(xs[1..]);
      assert ItemTexts(xs)[1..] == ItemTexts(xs[1..]);
    }
  }

  lemma TextSpelled(k: Key, raw: string)
    ensures Text(k, raw).Print() == S(KeyText(k), raw)
  {
    hide KeyText;
  }

  lemma IntSpelled(k: Key, n: int)
    ensures Int(k, n).Print() == N(KeyText(k), SignedDecimal(n))
  {
    hide KeyText, SignedDecimal;
  }

  lemma GroupSpelled(k: Key, ls: seq<Leaf>)
    ensures Group(k, ls).Print() == G(KeyText(k), LeafTexts(ls))
  {
    hide KeyText, PrintLeaves, LeafTexts, Commas;
    LeavesAreCommas(ls);
  }

  // ---------- the parts of a line ----------

  function HeaderParts(runId: string, seqNo: nat, timeNs: nat, pid: int, tid: int, etype: string, name: string,
                       phase: string): seq<string> {
    [S("schema_version", "adr.trace.v1"), S("run_id", runId), N("seq", Decimal(seqNo)), N("time_ns", Decimal(timeNs)),
     N("pid", SignedDecimal(pid)), N("tid", SignedDecimal(tid)), S("etype", etype), S("name", name), S("phase", phase)]
  }

  lemma HeaderSpelled(s: Stamp, tid: int, etype: string, name: string, phase: string)
    ensures ItemTexts(Ones(HeaderLeaves(s, tid, etype, name, phase)))
         == HeaderParts(s.runId, s.seqNo, s.timeNs, s.pid, tid, etype, name, phase)
  {
    hide Decimal, SignedDecimal, Leaf.Print, S, N;
    TextSpelled(SchemaVersion, "adr.trace.v1");
    TextSpelled(RunId, s.runId);
    IntSpelled(Seq, s.seqNo);
    IntSpelled(TimeNs, s.timeNs);
    IntSpelled(Pid, s.pid);
    IntSpelled(Tid, tid);
    TextSpelled(Etype, etype);
    TextSpelled(Name, name);
    TextSpelled(Phase, phase);
    NaturalPrints(s.seqNo);
    NaturalPrints(s.timeNs);
  }

  lemma NaturalPrints(n: nat)
    ensures SignedDecimal(n) == Decimal(n)
  {
  }

  function CallParts(no: int, args: Args): seq<string> {
    [N("syscall_no", SignedDecimal(no)), N("a0", Decimal(args[0])), N("a1", Decimal(args[1])),
     N("a2", Decimal(args[2])), N("a3", Decimal(args[3])), N("a4", Decimal(args[4])), N("a5", Decimal(args[5]))]
  }

  lemma CallSpelled(e: Entry)
    ensures LeafTexts(CallLeaves(e)) == CallParts(e.no, e.args)
  {
    hide Decimal, SignedDecimal, Leaf.Print, N;
    IntSpelled(SyscallNo, e.no);
    IntSpelled(A0, e.args[0]);
    IntSpelled(A1, e.args[1]);
    IntSpelled(A2, e.args[2]);
    IntSpelled(A3, e.args[3]);
    IntSpelled(A4, e.args[4]);
    IntSpelled(A5, e.args[5]);
    NaturalPrints(e.args[0]);
    NaturalPrints(e.args[1]);
    NaturalPrints(e.args[2]);
    NaturalPrints(e.args[3]);
    NaturalPrints(e.args[4]);
    NaturalPrints(e.args[5]);
  }

  function RefParts(offset: int, length: nat, sha256: string): seq<string> {
    [S("file", "payload.bin"), N("offset", SignedDecimal(offset)), N("length", Decimal(length)), S("sha256", sha256),
     S("encoding", "raw")]
  }

  lemma RefSpelled(r: PayloadRef)
    ensures LeafTexts(PayloadLeaves(r)) == RefParts(r.offset, r.length, r.sha256)
  {
    hide Decimal, SignedDecimal, Leaf.Print, S, N;
    TextSpelled(File, "payload.bin");
    IntSpelled(Offset, r.offset);
    IntSpelled(Length, r.length);
    TextSpelled(Sha256Key, r.sha256);
    TextSpelled(Encoding, "raw");
    NaturalPrints(r.length);
  }

  lemma ResultSpelled(ret: int, errno: int)
    ensures ItemTexts(ResultItems(ret, errno)) == [N("ret", SignedDecimal(ret)), N("errno", SignedDecimal(errno))]
  {
    hide SignedDecimal, Leaf.Print, N;
    IntSpelled(Ret, ret);
    IntSpelled(Errno, errno);
  }

  lemma TextsConcat(xs: seq<Item>, ys: seq<Item>)
    ensures ItemTexts(xs + ys) == ItemTexts(xs) + ItemTexts(ys)
  {
    hide Item.Print;
  }

  // ---------- whole bodies ----------

  /** errno, as C converts a negated long to an int: 0 for a result that is no error. */
  lemma ErrnoIs(ret: int)
    ensures ret >= 0 ==> ErrnoOf(ret) == 0
    ensures -0x7fff_ffff <= ret < 0 ==> ErrnoOf(ret) == -ret
    ensures ret < 0 ==> -0x8000_0000 <= ErrnoOf(ret) < 0x8000_0000 && (ErrnoOf(ret) + ret) % 0x1_0000_0000 == 0
  {
  }

  /** A process body is its format string, filled in. */
  lemma ProcessSpelled(s: Stamp, name: string, target: string)
    ensures FullBody(Process(s, name, target)) ==
            "{" + Commas(HeaderParts(s.runId, s.seqNo, s.timeNs, s.pid, s.pid, "PROCESS", name, "instant")
                         + [G("args", [S("target", target)])])
  {
    hide HeaderLeaves, HeaderParts, Item.Print, Leaf.Print, PrintItems, Commas, S, G, FullBody;
    var e := Process(s, name, target);
    var hs := Ones(HeaderLeaves(s, s.pid, "PROCESS", name, "instant"));
    var a := [Group(EventText.Args, [Text(Target, target)])];
    BodyPrints(e);
    ItemsAreCommas(hs + a);
    TextsConcat(hs, a);
    HeaderSpelled(s, s.pid, "PROCESS", name, "instant");
    GroupSpelled(EventText.Args, [Text(Target, target)]);
    TextSpelled(Target, target);
    assert LeafTexts([Text(Target, target)]) == [S("target", target)];
    assert ItemTexts(a) == [G("args", [S("target", target)])];
  }

  /** A syscall body is its format string, filled in, with the reference of payload_json behind it. */
  lemma SyscallSpelled(s: Stamp, entry: Entry, ret: int, p: Option<PayloadRef>)
    ensures FullBody(Syscall(s, entry, ret, p)) ==
            "{" + Commas(HeaderParts(s.runId, s.seqNo, s.timeNs, s.pid, s.pid, "SYSCALL", SyscallName(entry.no), "exit")
                         + [G("args", CallParts(entry.no, entry.args))]
                         + [N("ret", SignedDecimal(ret)), N("errno", SignedDecimal(ErrnoOf(ret)))]
                         + if p.None? then []
                           else [G("payload_ref", RefParts(p.value.offset, p.value.length, p.value.sha256))])
  {
    hide HeaderLeaves, HeaderParts, Item.Print, Leaf.Print, PrintItems, Commas, S, N, G, FullBody, CallLeaves;
    hide CallParts;
    hide PayloadLeaves, RefParts, SyscallName, ErrnoOf, SignedDecimal, LeafTexts, ItemTexts, ResultItems;
    var e := Syscall(s, entry, ret, p);
    var hs := Ones(HeaderLeaves(s, s.pid, "SYSCALL", SyscallName(entry.no), "exit"));
    var a, r := [Group(EventText.Args, CallLeaves(entry))], ResultItems(ret, ErrnoOf(ret));
    BodyPrints(e);
    ItemsAreCommas(hs + a + r + PayloadItems(p));
    TextsConcat(hs, a);
    TextsConcat(hs + a, r);
    TextsConcat(hs + a + r, PayloadItems(p));
    HeaderSpelled(s, s.pid, "SYSCALL", SyscallName(entry.no), "exit");
    GroupSpelled(EventText.Args, CallLeaves(entry));
    CallSpelled(entry);
    ResultSpelled(ret, ErrnoOf(ret));
    assert ItemTexts(a) == [G("args", CallParts(entry.no, entry.args))];
    if p.Some? {
      GroupSpelled(PayloadRefKey, PayloadLeaves(p.value));
      RefSpelled(p.value);
      assert ItemTexts(PayloadItems(p)) == [G("payload_ref", RefParts(p.value.offset, p.value.length, p.value.sha256))];
    } else {
      assert ItemTexts(PayloadItems(p)) == [];
    }
  }

  /** A hook body is its format string, filled in. */
  lemma HookSpelled(h: HookEvent)
    ensures HookBody(h) ==
            "{" + Commas(HeaderParts(h.runId, h.seqNo, h.timeNs, h.pid, h.tid, "SYNC", h.name, h.phase)
                         + [S("object_id", h.objectId), G("args", [N(KeyText(h.key), Decimal(h.value))]),
                            N("ret", SignedDecimal(h.ret)),
                            N("errno", SignedDecimal(if h.ret < 0 then -h.ret else 0))])
  {
    hide HeaderLeaves, HeaderParts, Item.Print, Leaf.Print, PrintItems, Commas, S, N, G, HookBody, SignedDecimal;
    hide Decimal;
    hide LeafTexts, ItemTexts, ResultItems;
    var hs := Ones(HeaderLeaves(HookStamp(h), h.tid, "SYNC", h.name, h.phase));
    var o, a := [One(Text(ObjectId, h.objectId))], [Group(EventText.Args, [Int(h.key, h.value)])];
    var r := ResultItems(h.ret, HookErrno(h));
    HookBodyPrints(h);
    assert Ones(HookLeaves(h)) == hs + o;
    ItemsAreCommas(hs + o + a + r);
    TextsConcat(hs, o);
    TextsConcat(hs + o, a);
    TextsConcat(hs + o + a, r);
    HeaderSpelled(HookStamp(h), h.tid, "SYNC", h.name, h.phase);
    TextSpelled(ObjectId, h.objectId);
    GroupSpelled(EventText.Args, [Int(h.key, h.value)]);
    IntSpelled(h.key, h.value);
    NaturalPrints(h.value);
    ResultSpelled(h.ret, HookErrno(h));
    LeafText([Int(h.key, h.value)]);
    ItemText(o);
    ItemText(a);
    OneSpelled(Text(ObjectId, h.objectId));
    var head := HeaderParts(h.runId, h.seqNo, h.timeNs, h.pid, h.tid, "SYNC", h.name, h.phase);
    var x, y, z := S("object_id", h.objectId), G("args", [N(KeyText(h.key), Decimal(h.value))]), ItemTexts(r);
    assert head + [x] + [y] + z == head + [x, y, z[0], z[1]];
  }

  lemma LeafText(ls: seq<Leaf>)
    requires |ls| == 1
    ensures LeafTexts(ls) == [ls[0].Print()]
  {
  }

  lemma OneSpelled(l: Leaf)
    ensures One(l).Print() == l.Print()
  {
  }

  lemma ItemText(xs: seq<Item>)
    requires |xs| == 1
    ensures ItemTexts(xs) == [xs[0].Print()]
  {
  }

  /** The chain fields close every line. */
  lemma LineSpelled(body: string, prevHash: string, eventHash: string)
    ensures LineText(body, prevHash, eventHash)
         == body + "," + S("prev_hash", prevHash) + "," + S("event_hash", eventHash) + "}\n"
  {
    ChainPrints(prevHash, eventHash);
    PrintTwo(Text(PrevHash, prevHash), Text(EventHash, eventHash));
    TextSpelled(PrevHash, prevHash);
    TextSpelled(EventHash, eventHash);
    hide RenderAll, PrintItems, S, Leaf.Print;
    JoinEnding(body, S("prev_hash", prevHash), S("event_hash", eventHash));
  }

  lemma JoinEnding(b: string, p: string, e: string)
    ensures b + "," + (p + "," + e + "}") + "\n" == b + "," + p + "," + e + "}\n"
  {
  }

  lemma ClosingLength(hash: string)
    requires |hash| == 64
    ensures |S("prev_hash", "hook")| == 18 && |S("event_hash", hash)| == 79
  {
    assert |"prev_hash"| == 9 && |"event_hash"| == 10 && |"hook"| == 4;
  }

  /** A hook line is written, whole, exactly when its body leaves room for a NUL in 2048 chars: the second buffer
      is never the one too small. */
  lemma HookRoom(h: HookEvent)
    ensures HookLine(h).Some? <==> |HookBody(h)| <= 2047
    ensures HookLine(h).Some? ==>
              HookLine(h).value == HookBody(h) + "," + S("prev_hash", "hook") + ","
                                   + S("event_hash", Hash.HexDigest(HashChain.Bytes(HookBody(h)))) + "}\n"
  {
    hide HookBody, LineText, S, Hash.HexDigest;
    var b := HookBody(h);
    var hash := Hash.HexDigest(HashChain.Bytes(b));
    LineSpelled(b, "hook", hash);
    ClosingLength(hash);
    assert |LineText(b, "hook", hash)| == |b| + 101;
  }

  /** What an argument of a hook line is called. */
  lemma ArgumentSpelled()
    ensures KeyText(ThreadPtr) == "thread_ptr" && KeyText(Thread) == "thread"
    ensures KeyText(Mutex) == "mutex" && KeyText(Cond) == "cond"
  {
  }
}
