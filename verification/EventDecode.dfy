/** What json.loads and the verifier make of a printed event: exactly what the event says. */
module EventDecode {
  import opened CText
  import opened EventText
  import opened TraceEvent
  import opened TraceLog
  import opened JsonText
  import opened Json
  import opened LineJson
  import opened EventJson
  import opened Verifier
  import opened TraceReader

  // ---------- what a line says ----------

  function ViewEvent(e: Event): JsonEvent {
    match e
    case Process(s, name, _) => JsonEvent(Some("PROCESS"), Some(name), Some(s.seqNo), None, None, None, None)
    case Syscall(s, entry, ret, p) =>
      JsonEvent(Some("SYSCALL"), Some(SyscallName(entry.no)), Some(s.seqNo), Some(entry.no), Some(ret),
                Some(ErrnoOf(ret)),
                if p.Some? then Some(JsonPayload(Some(p.value.length), Some(p.value.sha256))) else None)
  }

  function ViewHook(h: HookEvent): JsonEvent {
    JsonEvent(Some("SYNC"), Some(h.name), Some(h.seqNo), None, Some(h.ret), Some(HookErrno(h)), None)
  }

  // ---------- the names of the members ----------

  function NamesOf(xs: seq<Item>): (r: seq<Key>)
    ensures |r| == |xs| && forall i :: 0 <= i < |r| ==> r[i] == xs[i].Name()
  {
    seq(|xs|, i requires 0 <= i < |xs| => xs[i].Name())
  }

  lemma {:induction false} FindAt(xs: seq<Item>, k: Key, i: nat)
    requires i < |xs| && xs[i].Name() == k && forall j :: i < j < |xs| ==> xs[j].Name() != k
    ensures Find(xs, k) == Some(xs[i])
  {
    if i < |xs| - 1 {
      FindAt(xs[..|xs| - 1], k, i);
    }
  }

  lemma {:induction false} FindNone(xs: seq<Item>, k: Key)
    requires forall j :: 0 <= j < |xs| ==> xs[j].Name() != k
    ensures Find(xs, k) == None
  {
    if xs != [] {
      FindNone(xs[..|xs| - 1], k);
    }
  }

  // ---------- legible texts ----------

  predicate ProcessLegible(e: Event)
    requires e.Process?
  {
    Inside(e.stamp.runId) && Inside(e.target) && Plain(e.name)
  }

  predicate SyscallLegible(e: Event)
    requires e.Syscall?
  {
    Inside(e.stamp.runId) && (e.payload.Some? ==> Plain(e.payload.value.sha256))
  }

  predicate EventLegible(e: Event) { if e.Process? then ProcessLegible(e) else SyscallLegible(e) }

  predicate HookLegible(h: HookEvent) {
    Inside(h.runId) && Plain(h.name) && Plain(h.phase) && Plain(h.objectId) && IsArgument(h.key)
  }

  predicate IsArgument(k: Key) { k == ThreadPtr || k == Thread || k == Mutex || k == Cond }

  lemma PlainLeaf(k: Key, raw: string)
    requires Plain(raw)
    ensures Text(k, raw).Legible() && InsideValue(raw) == raw
  {
    PlainInside(raw);
  }

  lemma LiteralsPlain()
    ensures Plain("adr.trace.v1") && Plain("PROCESS") && Plain("SYSCALL") && Plain("SYNC")
    ensures Plain("instant") && Plain("exit") && Plain("payload.bin") && Plain("raw")
  {
  }

  lemma SyscallNamePlain(no: int)
    ensures Plain(SyscallName(no))
  {
    hide Decimal;
    NumberPlain(no);
  }

  lemma NumberPlain(n: int)
    ensures Plain("sys_" + SignedDecimal(n))
  {
    hide Decimal;
    assert AllDigits(Decimal(if n < 0 then -n else n));
  }

  lemma HeaderLegible(s: Stamp, tid: int, etype: string, name: string, phase: string)
    requires Inside(s.runId) && Plain(etype) && Plain(name) && Plain(phase)
    ensures AllLegible(HeaderLeaves(s, tid, etype, name, phase))
  {
    hide Inside, Plain, InsideValue;
    LiteralsPlain();
    PlainInside("adr.trace.v1");
    PlainInside(etype);
    PlainInside(name);
    PlainInside(phase);
  }

  lemma OnesLegible(ls: seq<Leaf>)
    requires AllLegible(ls)
    ensures ItemsLegible(Ones(ls))
  {
  }

  lemma PayloadLegible(r: PayloadRef)
    requires Plain(r.sha256)
    ensures AllLegible(PayloadLeaves(r)) && |PayloadLeaves(r)| == 5
  {
    hide Inside, Plain, InsideValue;
    LiteralsPlain();
    PlainInside("payload.bin");
    PlainInside(r.sha256);
    PlainInside("raw");
  }

  lemma SyscallItemsLegible(e: Event)
    requires e.Syscall? && SyscallLegible(e)
    ensures ItemsLegible(EventItems(e))
  {
    hide Inside, Plain, InsideValue, HeaderLeaves, SyscallName, PayloadLeaves, ErrnoOf;
    LiteralsPlain();
    SyscallNamePlain(e.entry.no);
    HeaderLegible(e.stamp, e.stamp.pid, "SYSCALL", SyscallName(e.entry.no), "exit");
    OnesLegible(HeaderLeaves(e.stamp, e.stamp.pid, "SYSCALL", SyscallName(e.entry.no), "exit"));
    if e.payload.Some? {
      PayloadLegible(e.payload.value);
    }
  }

  lemma ProcessItemsLegible(e: Event)
    requires e.Process? && ProcessLegible(e)
    ensures ItemsLegible(EventItems(e))
  {
    hide Inside, Plain, InsideValue, HeaderLeaves;
    LiteralsPlain();
    HeaderLegible(e.stamp, e.stamp.pid, "PROCESS", e.name, "instant");
    OnesLegible(HeaderLeaves(e.stamp, e.stamp.pid, "PROCESS", e.name, "instant"));
  }

  lemma HookItemsLegible(h: HookEvent)
    requires HookLegible(h)
    ensures ItemsLegible(HookItems(h))
  {
    hide Inside, Plain, InsideValue, HeaderLeaves;
    LiteralsPlain();
    HeaderLegible(HookStamp(h), h.tid, "SYNC", h.name, h.phase);
    PlainLeaf(ObjectId, h.objectId);
    OnesLegible(HookLeaves(h));
  }

  lemma ChainLegible(prevHash: string, eventHash: string)
    requires Plain(prevHash) && Plain(eventHash)
    ensures ItemsLegible(ChainItems(prevHash, eventHash))
  {
    PlainInside(prevHash);
    PlainInside(eventHash);
  }

  // ---------- decoding ----------

  /** The last of the names that is k stands at i. */
  predicate StandsAt(names: seq<Key>, k: Key, i: nat) {
    i < |names| && names[i] == k && forall j :: i < j < |names| ==> names[j] != k
  }

  /** The value of a member, given where it stands. */
  lemma GetAt(xs: seq<Item>, k: Key, i: nat)
    requires ItemsLegible(xs) && StandsAt(NamesOf(xs), k, i)
    ensures xs[i].Legible() && Get(ItemMeanings(xs), KeyText(k)) == xs[i].Meaning().value
  {
    hide ItemMeanings, Item.Legible, Item.Meaning, KeyText, Find;
    assert forall j :: 0 <= j < |xs| ==> xs[j].Name() == NamesOf(xs)[j];
    FindAt(xs, k, i);
    GetFinds(xs, k);
  }

  lemma GetNone(xs: seq<Item>, k: Key)
    requires ItemsLegible(xs) && k !in NamesOf(xs)
    ensures Get(ItemMeanings(xs), KeyText(k)) == Null
  {
    hide ItemMeanings, Item.Legible, KeyText, Find;
    assert forall j :: 0 <= j < |xs| ==> xs[j].Name() == NamesOf(xs)[j] && NamesOf(xs)[j] in NamesOf(xs);
    FindNone(xs, k);
    GetFinds(xs, k);
  }

  lemma CallDecodes(e: Entry)
    ensures AllLegible(CallLeaves(e)) && Get(Meanings(CallLeaves(e)), KeyText(SyscallNo)) == Integer(e.no)
  {
    hide KeyText, Get, ItemMeanings, Meanings;
    LeavesAsItems(CallLeaves(e));
    GetAt(Ones(CallLeaves(e)), SyscallNo, 0);
  }

  lemma TargetDecodes(target: string)
    requires Inside(target)
    ensures AllLegible([Text(Target, target)]) && Get(Meanings([Text(Target, target)]), KeyText(SyscallNo)) == Null
  {
    hide KeyText, Inside;
    LeavesAsItems([Text(Target, target)]);
    GetNone(Ones([Text(Target, target)]), SyscallNo);
  }

  lemma ArgumentDecodes(k: Key, value: int)
    requires IsArgument(k)
    ensures AllLegible([Int(k, value)]) && Get(Meanings([Int(k, value)]), KeyText(SyscallNo)) == Null
  {
    hide KeyText;
    LeavesAsItems([Int(k, value)]);
    GetNone(Ones([Int(k, value)]), SyscallNo);
  }

  lemma PayloadDecodes(r: PayloadRef)
    requires Plain(r.sha256)
    ensures AllLegible(PayloadLeaves(r))
    ensures PayloadOf(Meanings(PayloadLeaves(r))) == Some(Some(JsonPayload(Some(r.length), Some(r.sha256))))
  {
    hide KeyText, Inside, Plain, InsideValue;
    PayloadLegible(r);
    PlainInside(r.sha256);
    LeavesAsItems(PayloadLeaves(r));
    GetAt(Ones(PayloadLeaves(r)), Length, 2);
    GetAt(Ones(PayloadLeaves(r)), Sha256Key, 3);
  }

  function HeaderNames(): seq<Key> { [SchemaVersion, RunId, Seq, TimeNs, Pid, Tid, Etype, Name, Phase] }

  lemma NamesConcat(xs: seq<Item>, ys: seq<Item>)
    ensures NamesOf(xs + ys) == NamesOf(xs) + NamesOf(ys)
  {
  }

  lemma HeaderNamed(s: Stamp, tid: int, etype: string, name: string, phase: string)
    ensures NamesOf(Ones(HeaderLeaves(s, tid, etype, name, phase))) == HeaderNames()
  {
  }

  /** The values of a header: the ones that are looked at. */
  lemma HeaderAt(s: Stamp, tid: int, etype: string, name: string, phase: string)
    ensures var hs := Ones(HeaderLeaves(s, tid, etype, name, phase));
            && |hs| == 9 && hs[2] == One(Int(Seq, s.seqNo)) && hs[6] == One(Text(Etype, etype))
            && hs[7] == One(Text(Name, name))
  {
  }

  /** A text member that is plain reads as itself. */
  lemma TextAt(xs: seq<Item>, i: nat, k: Key, raw: string)
    requires ItemsLegible(xs) && StandsAt(NamesOf(xs), k, i) && xs[i] == One(Text(k, raw)) && Plain(raw)
    ensures Get(ItemMeanings(xs), KeyText(k)) == JString(raw)
  {
    hide KeyText, InsideValue, Inside, Plain, ItemMeanings, ItemsLegible, StandsAt, NamesOf, Get;
    PlainInside(raw);
    GetAt(xs, k, i);
  }

  lemma IntAt(xs: seq<Item>, i: nat, k: Key, n: int)
    requires ItemsLegible(xs) && StandsAt(NamesOf(xs), k, i) && xs[i] == One(Int(k, n))
    ensures Get(ItemMeanings(xs), KeyText(k)) == Integer(n)
  {
    hide KeyText, ItemMeanings, ItemsLegible, StandsAt, NamesOf, Get;
    GetAt(xs, k, i);
  }

  lemma GroupAt(xs: seq<Item>, i: nat, k: Key, ls: seq<Leaf>)
    requires ItemsLegible(xs) && StandsAt(NamesOf(xs), k, i) && xs[i] == Group(k, ls)
    ensures AllLegible(ls) && Get(ItemMeanings(xs), KeyText(k)) == Object(Meanings(ls))
  {
    hide KeyText, ItemMeanings, Meanings, ItemsLegible, StandsAt, NamesOf, Get, AllLegible;
    GetAt(xs, k, i);
  }

  // ---------- syscall events ----------

  function LineItems(e: Event, prevHash: string, eventHash: string): seq<Item> {
    EventItems(e) + ChainItems(prevHash, eventHash)
  }

  lemma SyscallNamed(e: Event, prevHash: string, eventHash: string)
    requires e.Syscall?
    ensures NamesOf(LineItems(e, prevHash, eventHash)) == HeaderNames() + CallNames(e.payload.Some?)
  {
    hide HeaderLeaves, CallLeaves, PayloadLeaves, SyscallName, ErrnoOf, HeaderNames, Ones;
    var hs := Ones(HeaderLeaves(e.stamp, e.stamp.pid, "SYSCALL", SyscallName(e.entry.no), "exit"));
    var a, r := [Group(EventText.Args, CallLeaves(e.entry))], ResultItems(e.ret, ErrnoOf(e.ret));
    HeaderNamed(e.stamp, e.stamp.pid, "SYSCALL", SyscallName(e.entry.no), "exit");
    NamesConcat(hs, a);
    NamesConcat(hs + a, r);
    NamesConcat(hs + a + r, PayloadItems(e.payload));
    NamesConcat(hs + a + r + PayloadItems(e.payload), ChainItems(prevHash, eventHash));
    assert NamesOf(a) == [EventText.Args] && NamesOf(r) == [Ret, Errno];
    assert NamesOf(PayloadItems(e.payload)) == if e.payload.Some? then [PayloadRefKey] else [];
    assert NamesOf(ChainItems(prevHash, eventHash)) == [PrevHash, EventHash];
  }

  lemma SyscallAt(e: Event, prevHash: string, eventHash: string)
    requires e.Syscall?
    ensures var xs := LineItems(e, prevHash, eventHash);
            && |xs| == (if e.payload.Some? then 15 else 14)
            && xs[2] == One(Int(Seq, e.stamp.seqNo)) && xs[6] == One(Text(Etype, "SYSCALL"))
            && xs[7] == One(Text(Name, SyscallName(e.entry.no))) && xs[9] == Group(EventText.Args, CallLeaves(e.entry))
            && xs[10] == One(Int(Ret, e.ret)) && xs[11] == One(Int(Errno, ErrnoOf(e.ret)))
            && (e.payload.Some? ==> xs[12] == Group(PayloadRefKey, PayloadLeaves(e.payload.value)))
  {
    hide HeaderLeaves, CallLeaves, PayloadLeaves, SyscallName, ErrnoOf;
    var hs := Ones(HeaderLeaves(e.stamp, e.stamp.pid, "SYSCALL", SyscallName(e.entry.no), "exit"));
    HeaderAt(e.stamp, e.stamp.pid, "SYSCALL", SyscallName(e.entry.no), "exit");
    var xs := LineItems(e, prevHash, eventHash);
    assert xs[..9] == hs;
    assert xs[2] == hs[2] && xs[6] == hs[6] && xs[7] == hs[7];
  }

  lemma ConcatLegible(xs: seq<Item>, ys: seq<Item>)
    requires ItemsLegible(xs) && ItemsLegible(ys)
    ensures ItemsLegible(xs + ys)
  {
  }

  /** The parts of an object that make an event. */
  lemma EventFrom(ms: seq<Member>, args: seq<Member>, ref: seq<Member>, e: JsonEvent)
    requires TextOf(Get(ms, KeyText(Etype))) == Some(e.etype) && TextOf(Get(ms, KeyText(Name))) == Some(e.name)
    requires IntOf(Get(ms, KeyText(Seq))) == Some(e.seqNo) && IntOf(Get(ms, KeyText(Ret))) == Some(e.ret)
    requires IntOf(Get(ms, KeyText(Errno))) == Some(e.errno)
    requires MembersOf(Get(ms, KeyText(EventText.Args))) == Some(args)
    requires MembersOf(Get(ms, KeyText(PayloadRefKey))) == Some(ref)
    requires IntOf(Get(args, KeyText(SyscallNo))) == Some(e.syscallNo) && PayloadOf(ref) == Some(e.payload)
    ensures EventOf(Object(ms)) == Some(e)
  {
    hide KeyText, Get, TextOf, IntOf, MembersOf, PayloadOf;
  }

  lemma SyscallDecodes(e: Event, prevHash: string, eventHash: string)
    requires e.Syscall? && SyscallLegible(e) && Plain(prevHash) && Plain(eventHash)
    ensures var xs := LineItems(e, prevHash, eventHash);
            ItemsLegible(xs) && EventOf(Object(ItemMeanings(xs))) == Some(ViewEvent(e))
  {
    SyscallItemsLegible(e);
    ChainLegible(prevHash, eventHash);
    hide Inside, Plain, EventItems, ChainItems, ItemsLegible, ItemMeanings, KeyText, SyscallName, ErrnoOf, Meanings;
    hide CallLeaves, PayloadLeaves, PayloadOf, EventOf, Get, AllLegible;
    ConcatLegible(EventItems(e), ChainItems(prevHash, eventHash));
    SyscallHeaderDecodes(e, prevHash, eventHash);
    SyscallRestDecodes(e, prevHash, eventHash);
    CallDecodes(e.entry);
    if e.payload.Some? {
      PayloadDecodes(e.payload.value);
    } else {
      NoPayload();
    }
    EventFrom(ItemMeanings(LineItems(e, prevHash, eventHash)), Meanings(CallLeaves(e.entry)),
              if e.payload.Some? then Meanings(PayloadLeaves(e.payload.value)) else [], ViewEvent(e));
  }

  lemma NoPayload()
    ensures PayloadOf([]) == Some(None)
  {
  }

  /** Where the members of a header stand, whatever follows without their names. */
  lemma HeaderPlaces(names: seq<Key>, rest: seq<Key>)
    requires names == HeaderNames() + rest && Seq !in rest && Etype !in rest && Name !in rest
    ensures StandsAt(names, Seq, 2) && StandsAt(names, Etype, 6) && StandsAt(names, Name, 7)
  {
    assert forall j :: 9 <= j < |names| ==> names[j] == rest[j - 9] && rest[j - 9] in rest;
  }

  /** A later part stands where it stands, moved by what is in front. */
  lemma RestPlace(names: seq<Key>, front: seq<Key>, rest: seq<Key>, k: Key, i: nat)
    requires names == front + rest && StandsAt(rest, k, i)
    ensures StandsAt(names, k, |front| + i)
  {
    assert forall j :: |front| <= j < |names| ==> names[j] == rest[j - |front|];
  }

  lemma RestAbsent(names: seq<Key>, rest: seq<Key>, k: Key)
    requires names == HeaderNames() + rest && k !in rest && k !in HeaderNames()
    ensures k !in names
  {
  }

  function CallNames(payload: bool): seq<Key> {
    [EventText.Args, Ret, Errno] + (if payload then [PayloadRefKey] else []) + [PrevHash, EventHash]
  }

  lemma CallPlaces(payload: bool)
    ensures var rest := CallNames(payload);
            && Seq !in rest && Etype !in rest && Name !in rest
            && StandsAt(rest, EventText.Args, 0) && StandsAt(rest, Ret, 1) && StandsAt(rest, Errno, 2)
            && (if payload then StandsAt(rest, PayloadRefKey, 3) else PayloadRefKey !in rest)
  {
  }

  lemma HeaderNamesAre()
    ensures |HeaderNames()| == 9 && PayloadRefKey !in HeaderNames()
  {
  }

  /** Where the members of a syscall line stand. */
  lemma SyscallPlaces(names: seq<Key>, payload: bool)
    requires names == HeaderNames() + CallNames(payload)
    ensures StandsAt(names, Seq, 2) && StandsAt(names, Etype, 6) && StandsAt(names, Name, 7)
    ensures StandsAt(names, EventText.Args, 9) && StandsAt(names, Ret, 10) && StandsAt(names, Errno, 11)
    ensures if payload then StandsAt(names, PayloadRefKey, 12) else PayloadRefKey !in names
  {
    hide StandsAt, HeaderNames, CallNames;
    var rest := CallNames(payload);
    CallPlaces(payload);
    HeaderNamesAre();
    HeaderPlaces(names, rest);
    RestPlace(names, HeaderNames(), rest, EventText.Args, 0);
    RestPlace(names, HeaderNames(), rest, Ret, 1);
    RestPlace(names, HeaderNames(), rest, Errno, 2);
    if payload {
      RestPlace(names, HeaderNames(), rest, PayloadRefKey, 3);
    } else {
      RestAbsent(names, rest, PayloadRefKey);
    }
  }

  lemma SyscallHeaderDecodes(e: Event, prevHash: string, eventHash: string)
    requires e.Syscall? && ItemsLegible(LineItems(e, prevHash, eventHash))
    ensures var ms := ItemMeanings(LineItems(e, prevHash, eventHash));
            && Get(ms, KeyText(Seq)) == Integer(e.stamp.seqNo) && Get(ms, KeyText(Etype)) == JString("SYSCALL")
            && Get(ms, KeyText(Name)) == JString(SyscallName(e.entry.no))
  {
    hide ItemMeanings, KeyText, SyscallName, LineItems, ErrnoOf, CallLeaves, PayloadLeaves, ItemsLegible, Plain;
    hide StandsAt, NamesOf, HeaderNames, CallNames, Get;
    var xs := LineItems(e, prevHash, eventHash);
    SyscallNamed(e, prevHash, eventHash);
    SyscallPlaces(NamesOf(xs), e.payload.Some?);
    SyscallAt(e, prevHash, eventHash);
    LiteralsPlain();
    SyscallNamePlain(e.entry.no);
    IntAt(xs, 2, Seq, e.stamp.seqNo);
    TextAt(xs, 6, Etype, "SYSCALL");
    TextAt(xs, 7, Name, SyscallName(e.entry.no));
  }

  lemma SyscallRestDecodes(e: Event, prevHash: string, eventHash: string)
    requires e.Syscall? && ItemsLegible(LineItems(e, prevHash, eventHash))
    ensures AllLegible(CallLeaves(e.entry)) && (e.payload.Some? ==> AllLegible(PayloadLeaves(e.payload.value)))
    ensures var ms := ItemMeanings(LineItems(e, prevHash, eventHash));
            && Get(ms, KeyText(Ret)) == Integer(e.ret) && Get(ms, KeyText(Errno)) == Integer(ErrnoOf(e.ret))
            && Get(ms, KeyText(EventText.Args)) == Object(Meanings(CallLeaves(e.entry)))
            && Get(ms, KeyText(PayloadRefKey)) ==
               if e.payload.Some? then Object(Meanings(PayloadLeaves(e.payload.value))) else Null
  {
    hide ItemMeanings, KeyText, SyscallName, LineItems, ErrnoOf, CallLeaves, PayloadLeaves, Meanings, ItemsLegible;
    hide StandsAt, NamesOf, HeaderNames, CallNames, Get, AllLegible;
    var xs := LineItems(e, prevHash, eventHash);
    SyscallNamed(e, prevHash, eventHash);
    SyscallPlaces(NamesOf(xs), e.payload.Some?);
    SyscallAt(e, prevHash, eventHash);
    IntAt(xs, 10, Ret, e.ret);
    IntAt(xs, 11, Errno, ErrnoOf(e.ret));
    GroupAt(xs, 9, EventText.Args, CallLeaves(e.entry));
    if e.payload.Some? {
      GroupAt(xs, 12, PayloadRefKey, PayloadLeaves(e.payload.value));
    } else {
      GetNone(xs, PayloadRefKey);
    }
  }

  // ---------- process events ----------

  lemma ProcessAt(e: Event, prevHash: string, eventHash: string)
    requires e.Process?
    ensures var xs := LineItems(e, prevHash, eventHash);
            && |xs| == 12 && NamesOf(xs) == HeaderNames() + [EventText.Args, PrevHash, EventHash]
            && xs[2] == One(Int(Seq, e.stamp.seqNo)) && xs[6] == One(Text(Etype, "PROCESS"))
            && xs[7] == One(Text(Name, e.name)) && xs[9] == Group(EventText.Args, [Text(Target, e.target)])
  {
    hide HeaderLeaves, HeaderNames;
    var hs := Ones(HeaderLeaves(e.stamp, e.stamp.pid, "PROCESS", e.name, "instant"));
    var a := [Group(EventText.Args, [Text(Target, e.target)])];
    HeaderAt(e.stamp, e.stamp.pid, "PROCESS", e.name, "instant");
    HeaderNamed(e.stamp, e.stamp.pid, "PROCESS", e.name, "instant");
    NamesConcat(hs, a);
    NamesConcat(hs + a, ChainItems(prevHash, eventHash));
    assert NamesOf(a) == [EventText.Args];
    assert NamesOf(ChainItems(prevHash, eventHash)) == [PrevHash, EventHash];
    var xs := LineItems(e, prevHash, eventHash);
    assert xs == hs + a + ChainItems(prevHash, eventHash);
    assert xs[2] == hs[2] && xs[6] == hs[6] && xs[7] == hs[7] && xs[9] == a[0];
  }

  lemma ProcessRest()
    ensures var rest := [EventText.Args, PrevHash, EventHash];
            && Seq !in rest && Etype !in rest && Name !in rest && StandsAt(rest, EventText.Args, 0)
            && Ret !in rest && Errno !in rest && PayloadRefKey !in rest
    ensures Ret !in HeaderNames() && Errno !in HeaderNames() && PayloadRefKey !in HeaderNames() && |HeaderNames()| == 9
  {
  }

  lemma ProcessDecodes(e: Event, prevHash: string, eventHash: string)
    requires e.Process? && ProcessLegible(e) && Plain(prevHash) && Plain(eventHash)
    ensures var xs := LineItems(e, prevHash, eventHash);
            ItemsLegible(xs) && EventOf(Object(ItemMeanings(xs))) == Some(ViewEvent(e))
  {
    ProcessItemsLegible(e);
    ChainLegible(prevHash, eventHash);
    hide Inside, Plain, EventItems, ChainItems, ItemsLegible, ItemMeanings, KeyText, Meanings, EventOf, Get, AllLegible;
    ConcatLegible(EventItems(e), ChainItems(prevHash, eventHash));
    ProcessMembers(e, prevHash, eventHash);
    TargetDecodes(e.target);
    NoPayload();
    hide LineItems, PayloadOf;
    EventFrom(ItemMeanings(LineItems(e, prevHash, eventHash)), Meanings([Text(Target, e.target)]), [], ViewEvent(e));
  }

  lemma ProcessMembers(e: Event, prevHash: string, eventHash: string)
    requires e.Process? && ProcessLegible(e) && ItemsLegible(LineItems(e, prevHash, eventHash))
    ensures AllLegible([Text(Target, e.target)])
    ensures var ms := ItemMeanings(LineItems(e, prevHash, eventHash));
            && Get(ms, KeyText(Seq)) == Integer(e.stamp.seqNo) && Get(ms, KeyText(Etype)) == JString("PROCESS")
            && Get(ms, KeyText(Name)) == JString(e.name) && Get(ms, KeyText(Ret)) == Null
            && Get(ms, KeyText(Errno)) == Null && Get(ms, KeyText(PayloadRefKey)) == Null
            && Get(ms, KeyText(EventText.Args)) == Object(Meanings([Text(Target, e.target)]))
  {
    hide ItemMeanings, KeyText, LineItems, Meanings, ItemsLegible, StandsAt, NamesOf, HeaderNames, Get, AllLegible;
    hide Inside, Plain;
    var xs := LineItems(e, prevHash, eventHash);
    var names, rest := NamesOf(xs), [EventText.Args, PrevHash, EventHash];
    ProcessAt(e, prevHash, eventHash);
    ProcessRest();
    HeaderPlaces(names, rest);
    RestPlace(names, HeaderNames(), rest, EventText.Args, 0);
    RestAbsent(names, rest, Ret);
    RestAbsent(names, rest, Errno);
    RestAbsent(names, rest, PayloadRefKey);
    LiteralsPlain();
    IntAt(xs, 2, Seq, e.stamp.seqNo);
    TextAt(xs, 6, Etype, "PROCESS");
    TextAt(xs, 7, Name, e.name);
    GroupAt(xs, 9, EventText.Args, [Text(Target, e.target)]);
    GetNone(xs, Ret);
    GetNone(xs, Errno);
    GetNone(xs, PayloadRefKey);
  }

  // ---------- hook events ----------

  function HookLineItems(h: HookEvent, eventHash: string): seq<Item> { HookItems(h) + ChainItems("hook", eventHash) }

  function HookNames(): seq<Key> { [ObjectId, EventText.Args, Ret, Errno, PrevHash, EventHash] }

  lemma HookParts(h: HookEvent, eventHash: string)
    ensures HookLineItems(h, eventHash) ==
            Ones(HeaderLeaves(HookStamp(h), h.tid, "SYNC", h.name, h.phase)) + [One(Text(ObjectId, h.objectId))]
            + [Group(EventText.Args, [Int(h.key, h.value)])] + ResultItems(h.ret, HookErrno(h))
            + ChainItems("hook", eventHash)
  {
    hide HeaderLeaves, HookErrno, ChainItems, ResultItems;
    assert Ones(HookLeaves(h))
        == Ones(HeaderLeaves(HookStamp(h), h.tid, "SYNC", h.name, h.phase)) + [One(Text(ObjectId, h.objectId))];
  }

  lemma HookNamed(h: HookEvent, eventHash: string)
    ensures NamesOf(HookLineItems(h, eventHash)) == HeaderNames() + HookNames()
  {
    HookParts(h, eventHash);
    hide HeaderLeaves, HeaderNames, HookErrno, HookLineItems;
    var hs, o := Ones(HeaderLeaves(HookStamp(h), h.tid, "SYNC", h.name, h.phase)), [One(Text(ObjectId, h.objectId))];
    var a, r := [Group(EventText.Args, [Int(h.key, h.value)])], ResultItems(h.ret, HookErrno(h));
    HeaderNamed(HookStamp(h), h.tid, "SYNC", h.name, h.phase);
    NamesConcat(hs, o);
    NamesConcat(hs + o, a);
    NamesConcat(hs + o + a, r);
    NamesConcat(hs + o + a + r, ChainItems("hook", eventHash));
    assert NamesOf(o) == [ObjectId] && NamesOf(a) == [EventText.Args] && NamesOf(r) == [Ret, Errno];
    assert NamesOf(ChainItems("hook", eventHash)) == [PrevHash, EventHash];
  }

  lemma HookMembersAt(h: HookEvent, eventHash: string)
    ensures var xs := HookLineItems(h, eventHash);
            && |xs| == 15 && NamesOf(xs) == HeaderNames() + HookNames()
            && xs[2] == One(Int(Seq, h.seqNo)) && xs[6] == One(Text(Etype, "SYNC"))
            && xs[7] == One(Text(Name, h.name)) && xs[10] == Group(EventText.Args, [Int(h.key, h.value)])
            && xs[11] == One(Int(Ret, h.ret)) && xs[12] == One(Int(Errno, HookErrno(h)))
  {
    HookParts(h, eventHash);
    HookNamed(h, eventHash);
    hide HeaderLeaves, HeaderNames, HookNames, HookErrno, HookLineItems, NamesOf;
    var hs := Ones(HeaderLeaves(HookStamp(h), h.tid, "SYNC", h.name, h.phase));
    HeaderAt(HookStamp(h), h.tid, "SYNC", h.name, h.phase);
    var xs := HookLineItems(h, eventHash);
    assert xs[2] == hs[2] && xs[6] == hs[6] && xs[7] == hs[7];
  }

  lemma HookRest()
    ensures var rest := HookNames();
            && Seq !in rest && Etype !in rest && Name !in rest && PayloadRefKey !in rest
            && StandsAt(rest, EventText.Args, 1) && StandsAt(rest, Ret, 2) && StandsAt(rest, Errno, 3)
    ensures PayloadRefKey !in HeaderNames() && |HeaderNames()| == 9
  {
  }

  lemma HookMembers(h: HookEvent, eventHash: string)
    requires HookLegible(h) && ItemsLegible(HookLineItems(h, eventHash))
    ensures AllLegible([Int(h.key, h.value)])
    ensures var ms := ItemMeanings(HookLineItems(h, eventHash));
            && Get(ms, KeyText(Seq)) == Integer(h.seqNo) && Get(ms, KeyText(Etype)) == JString("SYNC")
            && Get(ms, KeyText(Name)) == JString(h.name) && Get(ms, KeyText(Ret)) == Integer(h.ret)
            && Get(ms, KeyText(Errno)) == Integer(HookErrno(h)) && Get(ms, KeyText(PayloadRefKey)) == Null
            && Get(ms, KeyText(EventText.Args)) == Object(Meanings([Int(h.key, h.value)]))
  {
    hide ItemMeanings, KeyText, HookLineItems, Meanings, ItemsLegible, StandsAt, NamesOf, HeaderNames, Get, AllLegible;
    hide Inside, Plain, HookNames, HookErrno, IsArgument;
    var xs := HookLineItems(h, eventHash);
    var names, rest := NamesOf(xs), HookNames();
    HookMembersAt(h, eventHash);
    HookRest();
    HeaderPlaces(names, rest);
    RestPlace(names, HeaderNames(), rest, EventText.Args, 1);
    RestPlace(names, HeaderNames(), rest, Ret, 2);
    RestPlace(names, HeaderNames(), rest, Errno, 3);
    RestAbsent(names, rest, PayloadRefKey);
    LiteralsPlain();
    IntAt(xs, 2, Seq, h.seqNo);
    TextAt(xs, 6, Etype, "SYNC");
    TextAt(xs, 7, Name, h.name);
    GroupAt(xs, 10, EventText.Args, [Int(h.key, h.value)]);
    IntAt(xs, 11, Ret, h.ret);
    IntAt(xs, 12, Errno, HookErrno(h));
    GetNone(xs, PayloadRefKey);
  }

  lemma HookDecodes(h: HookEvent, eventHash: string)
    requires HookLegible(h) && Plain(eventHash)
    ensures var xs := HookLineItems(h, eventHash);
            ItemsLegible(xs) && EventOf(Object(ItemMeanings(xs))) == Some(ViewHook(h))
  {
    HookItemsLegible(h);
    HookWordPlain();
    ChainLegible("hook", eventHash);
    hide Inside, Plain, HookItems, ChainItems, ItemsLegible, ItemMeanings, KeyText, Meanings, EventOf, Get, AllLegible;
    ConcatLegible(HookItems(h), ChainItems("hook", eventHash));
    HookMembers(h, eventHash);
    ArgumentDecodes(h.key, h.value);
    NoPayload();
    hide HookLineItems, PayloadOf, HookErrno, IsArgument;
    EventFrom(ItemMeanings(HookLineItems(h, eventHash)), Meanings([Int(h.key, h.value)]), [], ViewHook(h));
  }

  lemma HookWordPlain()
    ensures Plain("hook")
  {
  }
}
