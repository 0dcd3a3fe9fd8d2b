/** The text of one event line as a list of `"key":value` fields, and what strstr finds in it. */
module EventText {
  import opened CText

  datatype Key =
    | SchemaVersion | RunId | Seq | TimeNs | Pid | Tid | Etype | Name | Phase | Args | SyscallNo
    | A0 | A1 | A2 | A3 | A4 | A5 | Target | Ret | Errno | PayloadRefKey | File | Offset | Length
    | Sha256Key | Encoding | PrevHash | EventHash | ObjectId | ThreadPtr | Thread | Mutex | Cond

  function KeyText(k: Key): string {
    match k
    case SchemaVersion => "schema_version"
    case RunId => "run_id"
    case Seq => "seq"
    case TimeNs => "time_ns"
    case Pid => "pid"
    case Tid => "tid"
    case Etype => "etype"
    case Name => "name"
    case Phase => "phase"
    case Args => "args"
    case SyscallNo => "syscall_no"
    case A0 => "a0"
    case A1 => "a1"
    case A2 => "a2"
    case A3 => "a3"
    case A4 => "a4"
    case A5 => "a5"
    case Target => "target"
    case Ret => "ret"
    case Errno => "errno"
    case PayloadRefKey => "payload_ref"
    case File => "file"
    case Offset => "offset"
    case Length => "length"
    case Sha256Key => "sha256"
    case Encoding => "encoding"
    case PrevHash => "prev_hash"
    case EventHash => "event_hash"
    case ObjectId => "object_id"
    case ThreadPtr => "thread_ptr"
    case Thread => "thread"
    case Mutex => "mutex"
    case Cond => "cond"
  }

  predicate IsWord(s: string) {
    forall i :: 0 <= i < |s| ==> 'a' <= s[i] <= 'z' || '0' <= s[i] <= '9' || s[i] == '_'
  }

  /** What a key is made of: lower-case letters, digits and underscores, a letter first. */
  predicate IsKeyWord(s: string) { 0 < |s| <= 14 && 'a' <= s[0] <= 'z' && IsWord(s) }

  lemma HeaderKeyWord(k: Key)
    requires k in {SchemaVersion, RunId, Seq, TimeNs, Pid, Tid, Etype, Name, Phase}
    ensures IsKeyWord(KeyText(k))
  {
  }

  lemma CallKeyWord(k: Key)
    requires k in {Args, SyscallNo, A0, A1, A2, A3, A4, A5, Target}
    ensures IsKeyWord(KeyText(k))
  {
  }

  lemma ResultKeyWord(k: Key)
    requires k in {Ret, Errno, PayloadRefKey, File, Offset, Length, Sha256Key, Encoding}
    ensures IsKeyWord(KeyText(k))
  {
  }

  lemma OtherKeyWord(k: Key)
    requires k in {PrevHash, EventHash, ObjectId, ThreadPtr, Thread, Mutex, Cond}
    ensures IsKeyWord(KeyText(k))
  {
  }

  lemma KeyTextWord(k: Key)
    ensures IsKeyWord(KeyText(k))
  {
    hide KeyText, IsKeyWord;
    if k in {SchemaVersion, RunId, Seq, TimeNs, Pid, Tid, Etype, Name, Phase} {
      HeaderKeyWord(k);
    } else if k in {Args, SyscallNo, A0, A1, A2, A3, A4, A5, Target} {
      CallKeyWord(k);
    } else if k in {Ret, Errno, PayloadRefKey, File, Offset, Length, Sha256Key, Encoding} {
      ResultKeyWord(k);
    } else {
      OtherKeyWord(k);
    }
  }

  lemma KeyTextPlain(k: Key)
    ensures KeyText(k) != "" && Lacks(KeyText(k), '"') && 'a' <= KeyText(k)[0] <= 'z'
  {
    hide KeyText;
    KeyTextWord(k);
  }

  lemma TinyKeysDiffer(a: Key, b: Key)
    requires KeyText(a) == KeyText(b) && |KeyText(a)| <= 2
    ensures a == b
  {
  }

  lemma ShortKeysDiffer(a: Key, b: Key)
    requires KeyText(a) == KeyText(b) && |KeyText(a)| == 3
    ensures a == b
  {
  }

  lemma SmallKeysDiffer(a: Key, b: Key)
    requires KeyText(a) == KeyText(b) && |KeyText(a)| == 4
    ensures a == b
  {
  }

  lemma MediumKeysDiffer(a: Key, b: Key)
    requires KeyText(a) == KeyText(b) && |KeyText(a)| == 5
    ensures a == b
  {
  }

  lemma LargeKeysDiffer(a: Key, b: Key)
    requires KeyText(a) == KeyText(b) && |KeyText(a)| == 6
    ensures a == b
  {
  }

  lemma WideKeysDiffer(a: Key, b: Key)
    requires KeyText(a) == KeyText(b) && 6 < |KeyText(a)| <= 8
    ensures a == b
  {
  }

  lemma LongKeysDiffer(a: Key, b: Key)
    requires KeyText(a) == KeyText(b) && |KeyText(a)| > 8
    ensures a == b
  {
  }

  lemma KeyTextInjective(a: Key, b: Key)
    requires KeyText(a) == KeyText(b)
    ensures a == b
  {
    hide KeyText;
    var n := |KeyText(a)|;
    if n <= 2 {
      TinyKeysDiffer(a, b);
    } else if n == 3 {
      ShortKeysDiffer(a, b);
    } else if n == 4 {
      SmallKeysDiffer(a, b);
    } else if n == 5 {
      MediumKeysDiffer(a, b);
    } else if n == 6 {
      LargeKeysDiffer(a, b);
    } else if n <= 8 {
      WideKeysDiffer(a, b);
    } else {
      LongKeysDiffer(a, b);
    }
  }

  /** The text, printed between quotes, does not hold the search text `"key":x`. */
  predicate Quiet(text: string, k: Key, x: string) { FindAfter("\"" + text + "\"", Needle(k, x)) == None }

  /** `"key":text` for a number or an opening brace, `"key":"text"sep` for a string. */
  datatype Field = Num(key: Key, text: string) | Str(key: Key, text: string, sep: string) {
    /** Searching for `"k":x` does not stop within the value. */
    predicate Clean(k: Key, x: string) {
      if Num? then Lacks(text, '"')
      else Quiet(text, k, x) && Lacks(sep, '"') && sep != "" && (sep[0] == ',' || sep[0] == '}')
    }

    function Value(): string {
      match this
      case Num(_, text) => text
      case Str(_, text, sep) => "\"" + text + "\"" + sep
    }

    function Render(): string { "\"" + KeyText(key) + "\":" + Value() }
  }

  function RenderAll(fs: seq<Field>): string {
    if fs == [] then "" else fs[0].Render() + RenderAll(fs[1..])
  }

  predicate AllClean(fs: seq<Field>, k: Key, x: string) { forall i :: 0 <= i < |fs| ==> fs[i].Clean(k, x) }

  /** `"key":x`, the form of every needle the loader searches for. */
  function Needle(k: Key, x: string): string { "\"" + KeyText(k) + "\":" + x }

  lemma StepOverQuote(rest: string, needle: string)
    requires !(needle <= "\"" + rest)
    ensures FindAfter("\"" + rest, needle) == FindAfter(rest, needle)
  {
    assert ("\"" + rest)[1..] == rest;
  }

  /** A quoted text is where the needle starts exactly when it is the key and x follows its colon. */
  lemma NeedleAtQuote(k: Key, x: string, t: string, rest: string)
    requires Lacks(t, '"')
    ensures Needle(k, x) <= "\"" + t + "\"" + rest <==> t == KeyText(k) && ":" + x <= rest
  {
    hide KeyText;
    KeyTextPlain(k);
    QuotedPrefix(KeyText(k), ":" + x, t, rest);
    var l, r := Needle(k, x), "\"" + t + "\"" + rest;
    assert l[1..] == KeyText(k) + "\"" + (":" + x);
    assert r[1..] == t + "\"" + rest;
    assert l[0] == r[0];
    assert l[1..] <= r[1..] ==> l == [l[0]] + l[1..] && r == [r[0]] + r[1..] && l <= r;
  }

  /** What can follow a key in a search text: none of the chars that follow a value. */
  predicate IsSearch(x: string) { Lacks(x, ',') && Lacks(x, '}') && Lacks(x, '\n') }

  lemma NeedleLacks(k: Key, x: string, c: char)
    requires IsSearch(x) && c in ",}\n"
    ensures Lacks(Needle(k, x), c)
  {
    hide KeyText;
    KeyTextWord(k);
  }

  /** A text without quotes holds no search text. */
  lemma PlainQuiet(text: string, k: Key, x: string)
    requires Lacks(text, '"')
    ensures Quiet(text, k, x)
  {
    hide FindAfter, Needle;
    NeedleFirst(k, x);
    assert "\"" + text + "\"" == "\"" + (text + "\"") == "\"" + text + "\"" + "";
    NeedleAtQuote(k, x, text, "");
    StepOverQuote(text + "\"", Needle(k, x));
    FindSkips(text, "\"", Needle(k, x));
    LoneQuote(k, x);
  }

  lemma LoneQuote(k: Key, x: string)
    ensures FindAfter("\"", Needle(k, x)) == None
  {
    hide KeyText;
    KeyTextPlain(k);
  }

  /** Past its own key a field never matches. */
  lemma FindPastKey(f: Field, s: string, k: Key, x: string)
    requires f.Clean(k, x) && IsSearch(x)
    ensures FindAfter(":" + f.Value() + s, Needle(k, x)) == FindAfter(s, Needle(k, x))
  {
    hide KeyText, FindAfter, Needle;
    var n := Needle(k, x);
    NeedleFirst(k, x);
    match f
    case Num(_, text) =>
      FindSkips(":" + text, s, n);
    case Str(_, text, sep) =>
      var quoted := "\"" + text + "\"";
      FindSkips(":", quoted + (sep + s), n);
      assert ":" + f.Value() + s == ":" + (quoted + (sep + s));
      NeedleLacks(k, x, sep[0]);
      FindAcross(quoted, sep + s, n);
      FindSkips(sep, s, n);
  }

  lemma ColonPrefix(x: string, v: string)
    ensures ":" + x <= ":" + v <==> x <= v
  {
    assert (":" + x)[1..] == x && (":" + v)[1..] == v;
    assert x <= v ==> v == x + v[|x|..] && ":" + v == ":" + x + v[|x|..];
  }

  lemma QuoteBeforeColon(k: Key, x: string, v: string)
    ensures FindAfter("\"" + (":" + v), Needle(k, x)) == FindAfter(":" + v, Needle(k, x))
  {
    hide KeyText, FindAfter;
    KeyTextPlain(k);
    assert Needle(k, x)[1] == KeyText(k)[0];
    StepOverQuote(":" + v, Needle(k, x));
  }

  lemma FindInField(f: Field, s: string, k: Key, x: string)
    requires f.Clean(k, x) && IsSearch(x)
    ensures FindAfter(f.Render() + s, Needle(k, x)) ==
            if f.key == k && x <= f.Value() + s then Some((f.Value() + s)[|x|..]) else FindAfter(s, Needle(k, x))
  {
    hide KeyText, FindAfter, Field.Value, Needle;
    var n, key, v := Needle(k, x), KeyText(f.key), f.Value() + s;
    var line := f.Render() + s;
    assert line == "\"" + key + "\"" + (":" + v);
    KeyTextPlain(f.key);
    NeedleAtQuote(k, x, key, ":" + v);
    ColonPrefix(x, v);
    if KeyText(k) == key {
      KeyTextInjective(k, f.key);
    }
    if n <= line {
      FindHere(k, x, v);
    } else {
      assert line == "\"" + (key + "\"" + (":" + v));
      StepOverQuote(key + "\"" + (":" + v), n);
      assert key + "\"" + (":" + v) == key + ("\"" + (":" + v));
      NeedleFirst(k, x);
      FindSkips(key, "\"" + (":" + v), n);
      QuoteBeforeColon(k, x, v);
      assert ":" + v == ":" + f.Value() + s;
      FindPastKey(f, s, k, x);
    }
  }

  lemma NeedleFirst(k: Key, x: string)
    ensures Needle(k, x) != "" && Needle(k, x)[0] == '"'
  {
  }

  lemma FindHere(k: Key, x: string, v: string)
    requires x <= v
    ensures FindAfter("\"" + KeyText(k) + "\"" + (":" + v), Needle(k, x)) == Some(v[|x|..])
  {
    hide KeyText;
    var line := "\"" + KeyText(k) + "\"" + (":" + v);
    assert v == x + v[|x|..];
    assert line == Needle(k, x) + v[|x|..];
  }

  /** The text after the first field whose key is k and whose value starts with x. */
  function After(fs: seq<Field>, z: string, k: Key, x: string): Option<string> {
    if fs == [] then FindAfter(z, Needle(k, x))
    else
      var v := fs[0].Value() + (RenderAll(fs[1..]) + z);
      if fs[0].key == k && x <= v then Some(v[|x|..]) else After(fs[1..], z, k, x)
  }

  /** Searching the printed line is looking the field up. */
  lemma {:induction false} FindInFields(fs: seq<Field>, z: string, k: Key, x: string)
    requires AllClean(fs, k, x) && IsSearch(x)
    ensures FindAfter(RenderAll(fs) + z, Needle(k, x)) == After(fs, z, k, x)
  {
    hide FindAfter, Needle, KeyText, Field.Render, Field.Value, Field.Clean, IsSearch;
    if fs == [] {
      assert RenderAll(fs) + z == z;
    } else {
      var s := RenderAll(fs[1..]) + z;
      assert RenderAll(fs) + z == fs[0].Render() + s;
      FindInField(fs[0], s, k, x);
      FindInFields(fs[1..], z, k, x);
    }
  }

  lemma {:induction false} RenderConcat(a: seq<Field>, b: seq<Field>)
    ensures RenderAll(a + b) == RenderAll(a) + RenderAll(b)
  {
    if a == [] {
      assert a + b == b;
    } else {
      assert (a + b)[1..] == a[1..] + b;
      RenderConcat(a[1..], b);
      assert RenderAll(a + b) == a[0].Render() + (RenderAll(a[1..]) + RenderAll(b));
    }
  }

  ghost predicate Only(s: string, p: char -> bool) { forall i :: 0 <= i < |s| ==> p(s[i]) }

  /** p holds of every printable ASCII char. */
  ghost predicate AllowsAscii(p: char -> bool) { forall c :: ' ' <= c <= '~' ==> p(c) }

  ghost predicate FieldOnly(f: Field, p: char -> bool) { Only(f.text, p) && (f.Str? ==> Only(f.sep, p)) }

  lemma WordOnly(s: string, p: char -> bool)
    requires AllowsAscii(p) && IsWord(s)
    ensures Only(s, p)
  {
  }

  lemma FieldRendersOnly(f: Field, p: char -> bool)
    requires AllowsAscii(p) && FieldOnly(f, p)
    ensures Only(f.Render(), p)
  {
    hide KeyText;
    KeyTextWord(f.key);
    WordOnly(KeyText(f.key), p);
  }

  /** A line has no other chars than printable ASCII and those of its texts. */
  lemma {:induction false} RenderOnly(fs: seq<Field>, p: char -> bool)
    requires AllowsAscii(p) && forall i :: 0 <= i < |fs| ==> FieldOnly(fs[i], p)
    ensures Only(RenderAll(fs), p)
  {
    hide AllowsAscii, FieldOnly, Field.Render;
    if fs != [] {
      assert FieldOnly(fs[0], p);
      FieldRendersOnly(fs[0], p);
      RenderOnly(fs[1..], p);
    }
  }

  lemma NumberOnly(n: int, p: char -> bool)
    requires AllowsAscii(p)
    ensures Only(SignedDecimal(n), p) && (n >= 0 ==> Only(Decimal(n), p))
  {
    hide Decimal;
    if n >= 0 {
      assert AllDigits(Decimal(n));
    } else {
      assert AllDigits(Decimal(-n));
    }
  }

  /** The length of a line is at most 20 chars a field over its texts. */
  function TextLength(fs: seq<Field>): nat {
    if fs == [] then 0 else |fs[0].text| + TextLength(fs[1..])
  }

  lemma {:induction false} RenderLength(fs: seq<Field>)
    requires forall i :: 0 <= i < |fs| && fs[i].Str? ==> |fs[i].sep| == 1
    ensures |RenderAll(fs)| <= 20 * |fs| + TextLength(fs)
  {
    if fs != [] {
      hide KeyText;
      KeyTextWord(fs[0].key);
      RenderLength(fs[1..]);
    }
  }

  lemma {:induction false} TextLengthBound(fs: seq<Field>)
    requires forall i :: 0 <= i < |fs| ==> |fs[i].text| <= 64
    ensures TextLength(fs) <= 64 * |fs|
  {
    if fs != [] {
      TextLengthBound(fs[1..]);
    }
  }

  lemma {:induction false} AfterAt(fs: seq<Field>, z: string, k: Key, x: string, i: nat)
    requires i < |fs| && fs[i].key == k && forall j :: 0 <= j < i ==> fs[j].key != k
    requires x <= fs[i].Value() + (RenderAll(fs[i + 1..]) + z)
    ensures After(fs, z, k, x) == Some((fs[i].Value() + (RenderAll(fs[i + 1..]) + z))[|x|..])
  {
    if i > 0 {
      assert fs[0].key != k;
      assert fs[1..][i..] == fs[i + 1..];
      AfterAt(fs[1..], z, k, x, i - 1);
    }
  }

  lemma {:induction false} AfterAbsent(fs: seq<Field>, z: string, k: Key, x: string)
    requires forall i :: 0 <= i < |fs| && fs[i].key == k ==> !(x <= fs[i].Value() + (RenderAll(fs[i + 1..]) + z))
    ensures After(fs, z, k, x) == FindAfter(z, Needle(k, x))
  {
    hide FindAfter, Needle;
    if fs != [] {
      assert fs[0].key != k || !(x <= fs[0].Value() + (RenderAll(fs[1..]) + z));
      forall i | 0 <= i < |fs[1..]| && fs[1..][i].key == k
        ensures !(x <= fs[1..][i].Value() + (RenderAll(fs[1..][i + 1..]) + z))
      {
        assert fs[1..][i] == fs[i + 1] && fs[1..][i + 1..] == fs[i + 2..];
      }
      AfterAbsent(fs[1..], z, k, x);
    }
  }
}
