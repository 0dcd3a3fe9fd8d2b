/** The reader of JSON against a writer of JSON: every value comes back from its text, however it is spaced; and
    escapes, surrogate pairs and numbers with a fraction or an exponent mean what RFC 8259 says. */
module JsonKnown {
  import opened CText
  import opened JsonText
  import opened Json

  // ---------- a writer ----------

  predicate NoFloats(v: Value) {
    match v
    case Float(_) => false
    case Array(items) => forall i :: 0 <= i < |items| ==> NoFloats(items[i])
    case Object(members) => forall i :: 0 <= i < |members| ==> NoFloats(members[i].value)
    case _ => true
  }

  /** The text of a value, with w at every place where space may stand. */
  function Show(v: Value, w: string): string
    decreases v
  {
    match v
    case Null => "null"
    case Bool(b) => if b then "true" else "false"
    case Integer(n) => SignedDecimal(n)
    case Float(text) => text
    case JString(s) => Escape(s)
    case Array(items) => "[" + w + ShowItems(items, w) + "]"
    case Object(members) => "{" + w + ShowMembers(members, w) + "}"
  }

  function ShowItems(items: seq<Value>, w: string): string
    decreases items
  {
    if items == [] then ""
    else if |items| == 1 then Show(items[0], w) + w
    else Show(items[0], w) + w + "," + w + ShowItems(items[1..], w)
  }

  function ShowMember(m: Member, w: string): string
    decreases m
  {
    Escape(m.key) + w + ":" + w + Show(m.value, w)
  }

  function ShowMembers(members: seq<Member>, w: string): string
    decreases members
  {
    if members == [] then ""
    else if |members| == 1 then ShowMember(members[0], w) + w
    else ShowMember(members[0], w) + w + "," + w + ShowMembers(members[1..], w)
  }

  /** Space, tab, line feed, carriage return. */
  predicate IsSpacing(w: string) { forall i :: 0 <= i < |w| ==> w[i] as nat in {32, 9, 10, 13} }

  predicate Solid(t: string) { t != "" && !IsJsonSpace(t[0]) }

  lemma {:induction false} SpacingSkipped(w: string, t: string)
    requires IsSpacing(w) && (t == "" || Solid(t))
    ensures SkipSpace(w + t) == t
  {
    if w == "" {
      assert w + t == t;
    } else {
      assert (w + t)[1..] == w[1..] + t;
      SpacingSkipped(w[1..], t);
    }
  }

  lemma {:induction false} NothingSkipped(t: string)
    requires Solid(t)
    ensures SkipSpace(t) == t
  {
  }

  lemma {:induction false} ShowSolid(v: Value, w: string, rest: string)
    requires !v.Float?
    ensures var t := Show(v, w) + rest; Solid(t) && t[0] != ']' && t[0] != '}'
  {
    hide Decimal, EscapeBody, ShowItems, ShowMembers;
    if v.Integer? {
      var d := Decimal(if v.n < 0 then -v.n else v.n);
      assert IsDigit(d[0]);
    }
  }

  lemma {:induction false} NullReads(rest: string)
    ensures ReadWord("null" + rest) == Some(Token(Null, rest))
  {
    var t := "null" + rest;
    assert "null" <= t && t[4..] == rest;
  }

  lemma {:induction false} TrueReads(rest: string)
    ensures ReadWord("true" + rest) == Some(Token(Bool(true), rest))
  {
    var t := "true" + rest;
    assert t[0] == 't';
    assert "true" <= t && t[4..] == rest;
  }

  lemma {:induction false} FalseReads(rest: string)
    ensures ReadWord("false" + rest) == Some(Token(Bool(false), rest))
  {
    var t := "false" + rest;
    assert t[0] == 'f';
    assert "false" <= t && t[5..] == rest;
  }

  lemma {:induction false} WordReads(v: Value, rest: string)
    requires v.Null? || v.Bool?
    ensures ReadValue(Show(v, "") + rest) == Some(Token(v, rest))
  {
    hide ReadWord;
    NullReads(rest);
    TrueReads(rest);
    FalseReads(rest);
    var t := Show(v, "") + rest;
    assert t[0] == Show(v, "")[0];
  }

  lemma {:induction false} TextReads(s: string, rest: string)
    ensures ReadValue(Escape(s) + rest) == Some(Token(JString(s), rest))
  {
    hide EscapeBody, ReadString;
    EscapeReads(s, rest);
    assert (Escape(s) + rest)[1..] == EscapeBody(s) + "\"" + rest;
  }

  /** What follows a value when there is space and then something. */
  lemma {:induction false} SpacingEnds(w: string, c: char, rest: string)
    requires IsSpacing(w) && (c == ',' || c == ']' || c == '}')
    ensures NumberEnds(w + [c] + rest) && SkipSpace(w + [c] + rest) == [c] + rest
  {
    assert w + [c] + rest == w + ([c] + rest);
    SpacingSkipped(w, [c] + rest);
  }

  lemma {:induction false} ValueReads(v: Value, w: string, rest: string)
    requires NoFloats(v) && IsSpacing(w) && NumberEnds(rest)
    ensures ReadValue(Show(v, w) + rest) == Some(Token(v, rest))
    decreases v
  {
    hide ReadValue, SignedDecimal, Escape, IsSpacing, ShowItems, ShowMembers, ReadString;
    match v
    case Null => WordReads(v, rest);
    case Bool(b) => WordReads(v, rest);
    case Integer(n) => IntegerReads(n, rest);
    case JString(s) => TextReads(s, rest);
    case Array(items) =>
      if items != [] {
        ItemsRead(items, w, rest);
      }
      ArrayReads(items, w, rest);
    case Object(members) =>
      if members != [] {
        MembersRead(members, w, rest);
      }
      ObjectReads(members, w, rest);
  }

  lemma {:induction false} JoinFour(a: string, w: string, b: string, rest: string)
    ensures (a + w + b) + rest == a + (w + (b + rest))
  {
  }

  lemma {:induction false} ArrayReads(items: seq<Value>, w: string, rest: string)
    requires IsSpacing(w) && NoFloats(Array(items))
    requires items != [] ==> ReadItems(ShowItems(items, w) + "]" + rest) == Some(Token(items, rest))
    ensures ReadValue(Show(Array(items), w) + rest) == Some(Token(Array(items), rest))
  {
    hide IsSpacing, ReadItems, NoFloats, SkipSpace;
    var body := ShowItems(items, w) + "]" + rest;
    JoinFour("[", w, ShowItems(items, w) + "]", rest);
    assert "[" + w + (ShowItems(items, w) + "]") == "[" + w + ShowItems(items, w) + "]";
    assert ShowItems(items, w) + "]" + rest == (ShowItems(items, w) + "]") + rest;
    var t := "[" + (w + body);
    assert t[0] == '[' && t[1..] == w + body;
    assert Show(Array(items), w) + rest == t;
    if items == [] {
      assert body == "]" + rest && body[1..] == rest;
    } else {
      ItemsSolid(items, w, "]" + rest);
      assert ShowItems(items, w) + ("]" + rest) == body;
    }
    SpacingSkipped(w, body);
    hide ShowItems;
  }

  lemma {:induction false} ItemsSolid(items: seq<Value>, w: string, rest: string)
    requires items != [] && NoFloats(Array(items))
    ensures var t := ShowItems(items, w) + rest; Solid(t) && t[0] != ']'
  {
    assert NoFloats(items[0]);
    hide Show, NoFloats;
    ShowSolid(items[0], w, "");
    assert Show(items[0], w) + "" == Show(items[0], w);
  }

  lemma {:induction false} LastItem(v: Value, w: string, more: string, rest: string)
    requires IsSpacing(w) && more == w + "]" + rest && ReadValue(Show(v, w) + more) == Some(Token(v, more))
    ensures ReadItems(Show(v, w) + more) == Some(Token([v], rest))
  {
    hide ReadValue, SkipSpace, Show, IsSpacing;
    SpacingEnds(w, ']', rest);
    assert ("]" + rest)[1..] == rest;
  }

  lemma {:induction false} OneMoreItem(v: Value, w: string, more: string, next: string, vs: seq<Value>, rest: string)
    requires IsSpacing(w) && more == w + "," + (w + next) && ReadValue(Show(v, w) + more) == Some(Token(v, more))
    requires Solid(next) && ReadItems(next) == Some(Token(vs, rest))
    ensures ReadItems(Show(v, w) + more) == Some(Token([v] + vs, rest))
  {
    hide ReadValue, SkipSpace, Show, IsSpacing;
    SpacingEnds(w, ',', w + next);
    assert ("," + (w + next))[1..] == w + next;
    SpacingSkipped(w, next);
    hide Solid;
  }

  lemma {:induction false} ItemsRead(items: seq<Value>, w: string, rest: string)
    requires items != [] && NoFloats(Array(items)) && IsSpacing(w)
    ensures ReadItems(ShowItems(items, w) + "]" + rest) == Some(Token(items, rest))
    decreases items
  {
    assert NoFloats(items[0]);
    var v := items[0];
    if |items| == 1 {
      hide ReadValue, ReadItems, Show, IsSpacing, SkipSpace, NumberEnds, NoFloats;
      var more := w + "]" + rest;
      SpacingEnds(w, ']', rest);
      ValueReads(v, w, more);
      LastItem(v, w, more, rest);
      assert items == [v];
      JoinItem(Show(v, w), w, "]", rest);
    } else {
      var vs := items[1..];
      assert NoFloats(Array(vs));
      hide ReadValue, ReadItems, Show, IsSpacing, SkipSpace, NumberEnds, NoFloats, Solid;
      var next := ShowItems(vs, w) + "]" + rest;
      var more := w + "," + (w + next);
      SpacingEnds(w, ',', w + next);
      ValueReads(v, w, more);
      ItemsSolid(vs, w, "]" + rest);
      JoinTwo(ShowItems(vs, w), "]", rest);
      ItemsRead(vs, w, rest);
      OneMoreItem(v, w, more, next, vs, rest);
      assert items == [v] + vs;
      ItemsFirst(items, w);
      hide ShowItems;
      JoinItems(Show(v, w), w, ShowItems(vs, w), "]", rest);
    }
  }

  lemma {:induction false} ItemsFirst(items: seq<Value>, w: string)
    requires |items| > 1
    ensures ShowItems(items, w) == Show(items[0], w) + w + "," + w + ShowItems(items[1..], w)
  {
    hide Show;
  }

  lemma {:induction false} JoinTwo(a: string, b: string, c: string)
    ensures a + (b + c) == a + b + c
  {
  }

  lemma {:induction false} JoinItem(a: string, w: string, c: string, rest: string)
    ensures (a + w) + c + rest == a + (w + c + rest)
  {
  }

  lemma {:induction false} JoinItems(a: string, w: string, b: string, c: string, rest: string)
    ensures (a + w + "," + w + b) + c + rest == a + (w + "," + (w + (b + c + rest)))
  {
  }

  // ---------- objects ----------

  lemma {:induction false} JoinMember(k: string, w: string, v: string, more: string)
    ensures (k + w + ":" + w + v) + more == k + (w + ":" + (w + (v + more)))
  {
  }

  lemma {:induction false} MemberReads(m: Member, w: string, more: string)
    requires IsSpacing(w) && !m.value.Float?
    requires ReadValue(Show(m.value, w) + more) == Some(Token(m.value, more))
    ensures ReadMember(ShowMember(m, w) + more) == Some(Token(m, more))
  {
    hide ReadValue, ReadString, SkipSpace, Show, EscapeBody, IsSpacing;
    var v := Show(m.value, w) + more;
    var t := w + ":" + (w + v);
    JoinMember(Escape(m.key), w, Show(m.value, w), more);
    assert (Escape(m.key) + t)[1..] == EscapeBody(m.key) + "\"" + t;
    EscapeReads(m.key, t);
    assert t == w + (":" + (w + v)) && (":" + (w + v))[1..] == w + v;
    SpacingSkipped(w, ":" + (w + v));
    ShowSolid(m.value, w, more);
    SpacingSkipped(w, v);
  }

  lemma {:induction false} MemberSolid(m: Member, w: string, rest: string)
    ensures var t := ShowMember(m, w) + rest; Solid(t) && t[0] == '"'
  {
    hide Show, EscapeBody;
  }

  lemma {:induction false} MembersSolid(ms: seq<Member>, w: string, rest: string)
    requires ms != []
    ensures var t := ShowMembers(ms, w) + rest; Solid(t) && t[0] == '"'
  {
    hide ShowMember;
    MemberSolid(ms[0], w, "");
    assert ShowMember(ms[0], w) + "" == ShowMember(ms[0], w);
  }

  lemma {:induction false} ObjectReads(ms: seq<Member>, w: string, rest: string)
    requires IsSpacing(w)
    requires ms != [] ==> ReadMembers(ShowMembers(ms, w) + "}" + rest) == Some(Token(ms, rest))
    ensures ReadValue(Show(Object(ms), w) + rest) == Some(Token(Object(ms), rest))
  {
    hide IsSpacing, ReadMembers, SkipSpace;
    var body := ShowMembers(ms, w) + "}" + rest;
    JoinFour("{", w, ShowMembers(ms, w) + "}", rest);
    assert "{" + w + (ShowMembers(ms, w) + "}") == "{" + w + ShowMembers(ms, w) + "}";
    assert ShowMembers(ms, w) + "}" + rest == (ShowMembers(ms, w) + "}") + rest;
    var t := "{" + (w + body);
    assert t[0] == '{' && t[1..] == w + body;
    assert Show(Object(ms), w) + rest == t;
    if ms == [] {
      assert body == "}" + rest && body[1..] == rest;
    } else {
      MembersSolid(ms, w, "}" + rest);
      assert ShowMembers(ms, w) + ("}" + rest) == body;
    }
    SpacingSkipped(w, body);
    hide ShowMembers;
  }

  lemma {:induction false} LastMember(m: Member, w: string, gap: string, more: string, rest: string)
    requires IsSpacing(gap) && more == gap + "}" + rest
    requires ReadMember(ShowMember(m, w) + more) == Some(Token(m, more))
    ensures ReadMembers(ShowMember(m, w) + more) == Some(Token([m], rest))
  {
    hide ReadMember, SkipSpace, ShowMember, IsSpacing;
    SpacingEnds(gap, '}', rest);
    assert ("}" + rest)[1..] == rest;
  }

  lemma {:induction false} OneMoreMember(m: Member, w: string, before: string, after: string, more: string,
                                         next: string, ms: seq<Member>, rest: string)
    requires IsSpacing(before) && IsSpacing(after) && more == before + "," + (after + next)
    requires ReadMember(ShowMember(m, w) + more) == Some(Token(m, more))
    requires Solid(next) && ReadMembers(next) == Some(Token(ms, rest))
    ensures ReadMembers(ShowMember(m, w) + more) == Some(Token([m] + ms, rest))
  {
    hide ReadMember, SkipSpace, ShowMember, IsSpacing;
    SpacingEnds(before, ',', after + next);
    assert ("," + (after + next))[1..] == after + next;
    SpacingSkipped(after, next);
    hide Solid;
  }

  lemma {:induction false} MembersRead(ms: seq<Member>, w: string, rest: string)
    requires ms != [] && NoFloats(Object(ms)) && IsSpacing(w)
    ensures ReadMembers(ShowMembers(ms, w) + "}" + rest) == Some(Token(ms, rest))
    decreases ms
  {
    var m := ms[0];
    assert NoFloats(m.value) && !m.value.Float?;
    var more := if |ms| == 1 then w + "}" + rest else w + "," + (w + (ShowMembers(ms[1..], w) + "}" + rest));
    assert NumberEnds(more) by {
      SpacingEnds(w, if |ms| == 1 then '}' else ',', more[|w| + 1..]);
      assert more == w + [more[|w|]] + more[|w| + 1..];
    }
    ValueReads(m.value, w, more);
    if |ms| > 1 {
      assert NoFloats(Object(ms[1..]));
      MembersRead(ms[1..], w, rest);
    }
    hide ReadValue, ReadMember, ReadMembers, ShowMember, Show, IsSpacing, SkipSpace, NumberEnds, NoFloats, ShowMembers;
    MemberReads(m, w, more);
    if |ms| == 1 {
      OnlyMember(m, w, more, rest);
      assert ms == [m];
    } else {
      MoreMembers(ms, w, more, rest);
    }
  }

  lemma {:induction false} OnlyMember(m: Member, w: string, more: string, rest: string)
    requires IsSpacing(w) && more == w + "}" + rest
    requires ReadMember(ShowMember(m, w) + more) == Some(Token(m, more))
    ensures ReadMembers(ShowMembers([m], w) + "}" + rest) == Some(Token([m], rest))
  {
    hide ReadMember, ReadMembers, ShowMember, IsSpacing;
    LastMember(m, w, w, more, rest);
    JoinItem(ShowMember(m, w), w, "}", rest);
  }

  lemma {:induction false} MoreMembers(ms: seq<Member>, w: string, more: string, rest: string)
    requires |ms| > 1 && IsSpacing(w) && more == w + "," + (w + (ShowMembers(ms[1..], w) + "}" + rest))
    requires ReadMember(ShowMember(ms[0], w) + more) == Some(Token(ms[0], more))
    requires ReadMembers(ShowMembers(ms[1..], w) + "}" + rest) == Some(Token(ms[1..], rest))
    ensures ReadMembers(ShowMembers(ms, w) + "}" + rest) == Some(Token(ms, rest))
  {
    hide ReadMember, ReadMembers, ShowMember, IsSpacing, Solid, ShowMembers;
    var m, others := ms[0], ms[1..];
    MembersSolid(others, w, "}" + rest);
    JoinTwo(ShowMembers(others, w), "}", rest);
    OneMoreMember(m, w, w, w, more, ShowMembers(others, w) + "}" + rest, others, rest);
    assert ms == [m] + others;
    MembersFirst(ms, w);
    JoinItems(ShowMember(m, w), w, ShowMembers(others, w), "}", rest);
  }

  lemma {:induction false} MembersFirst(ms: seq<Member>, w: string)
    requires |ms| > 1
    ensures ShowMembers(ms, w) == ShowMember(ms[0], w) + w + "," + w + ShowMembers(ms[1..], w)
  {
    hide ShowMember;
  }

  /** json.loads undoes every way of writing a value. */
  lemma {:induction false} LoadsShown(v: Value, w: string, before: string, after: string)
    requires NoFloats(v) && IsSpacing(w) && IsSpacing(before) && IsSpacing(after)
    ensures Loads(before + Show(v, w) + after) == Some(v)
  {
    assert !v.Float?;
    assert NumberEnds(after);
    hide ReadValue, Show, NoFloats;
    ShowSolid(v, w, after);
    assert before + Show(v, w) + after == before + (Show(v, w) + after);
    SpacingSkipped(before, Show(v, w) + after);
    ValueReads(v, w, after);
    SpacingSkipped(after, "");
    assert after + "" == after;
  }

  /** Anything else behind the value is an error. */
  lemma {:induction false} NothingBehind(v: Value, w: string, before: string, gap: string, c: char, more: string)
    requires NoFloats(v) && IsSpacing(w) && IsSpacing(before) && IsSpacing(gap)
    requires c != ' ' && c != '\t' && c != '\n' && c != '\r' && NumberEnds(gap + ([c] + more))
    ensures Loads(before + Show(v, w) + (gap + ([c] + more))) == None
  {
    assert !v.Float?;
    hide ReadValue, Show, NoFloats;
    var after := gap + ([c] + more);
    ShowSolid(v, w, after);
    assert before + Show(v, w) + after == before + (Show(v, w) + after);
    SpacingSkipped(before, Show(v, w) + after);
    ValueReads(v, w, after);
    SpacingSkipped(gap, [c] + more);
  }

  /** The three numbers Python adds to the grammar. */
  lemma {:induction false} PythonNumbers(rest: string)
    ensures ReadWord("NaN" + rest) == Some(Token(Float("NaN"), rest))
    ensures ReadWord("Infinity" + rest) == Some(Token(Float("Infinity"), rest))
    ensures ReadWord("-Infinity" + rest) == Some(Token(Float("-Infinity"), rest))
  {
    var a, b, c := "NaN" + rest, "Infinity" + rest, "-Infinity" + rest;
    assert a[0] == 'N' && b[0] == 'I' && c[0] == '-';
    assert "NaN" <= a && a[3..] == rest;
    assert "Infinity" <= b && b[8..] == rest;
    assert "-Infinity" <= c && c[9..] == rest;
  }

  // ---------- escapes ----------

  /** The eight letters of section 7 of RFC 8259. */
  lemma {:induction false} EscapeLetters(rest: string)
    ensures ReadEscape("\"" + rest) == Some(Token("\"", rest)) && ReadEscape("\\" + rest) == Some(Token("\\", rest))
    ensures ReadEscape("/" + rest) == Some(Token("/", rest)) && ReadEscape("b" + rest) == Some(Token([8 as char], rest))
    ensures ReadEscape("f" + rest) == Some(Token([12 as char], rest))
    ensures ReadEscape("n" + rest) == Some(Token([10 as char], rest))
    ensures ReadEscape("r" + rest) == Some(Token([13 as char], rest))
    ensures ReadEscape("t" + rest) == Some(Token([9 as char], rest))
  {
    hide ReadUnicode;
    assert ("\"" + rest)[1..] == rest && ("\\" + rest)[1..] == rest && ("/" + rest)[1..] == rest;
    assert ("b" + rest)[1..] == rest && ("f" + rest)[1..] == rest && ("n" + rest)[1..] == rest;
    assert ("r" + rest)[1..] == rest && ("t" + rest)[1..] == rest;
  }

  /** Other letters are no escapes. */
  lemma {:induction false} NoOtherEscape(c: char, rest: string)
    requires c !in "\"\\/bfnrtu"
    ensures ReadEscape([c] + rest) == None && ReadEscape("") == None
  {
    hide ReadUnicode;
    var letters := "\"\\/bfnrtu";
    assert letters[0] == '"' && letters[1] == '\\' && letters[2] == '/' && letters[3] == 'b' && letters[4] == 'f';
    assert letters[5] == 'n' && letters[6] == 'r' && letters[7] == 't' && letters[8] == 'u';
  }

  /** A hex digit in either case. */
  function HexChar(d: nat, upper: bool): char
    requires d < 16
  {
    if d < 10 then '0' + d as char else if upper then 'A' + (d - 10) as char else 'a' + (d - 10) as char
  }

  lemma {:induction false} HexCharReads(d: nat, upper: bool)
    requires d < 16
    ensures HexValue(HexChar(d, upper)) == Some(d)
  {
  }

  /** Four digits, each in its own case. */
  function FourDigits(v: nat, upper: (bool, bool, bool, bool)): (s: string)
    requires v < 0x1_0000
    ensures |s| == 4
  {
    [HexChar(v / 4096, upper.0), HexChar(v / 256 % 16, upper.1), HexChar(v / 16 % 16, upper.2),
     HexChar(v % 16, upper.3)]
  }

  lemma {:induction false} FourDigitsRead(v: nat, upper: (bool, bool, bool, bool), rest: string)
    requires v < 0x1_0000
    ensures FourHex(FourDigits(v, upper) + rest) == Some(v) && (FourDigits(v, upper) + rest)[4..] == rest
  {
    HexCharReads(v / 4096, upper.0);
    HexCharReads(v / 256 % 16, upper.1);
    HexCharReads(v / 16 % 16, upper.2);
    HexCharReads(v % 16, upper.3);
    var t := FourDigits(v, upper) + rest;
    assert t[0] == HexChar(v / 4096, upper.0) && t[1] == HexChar(v / 256 % 16, upper.1);
    assert t[2] == HexChar(v / 16 % 16, upper.2) && t[3] == HexChar(v % 16, upper.3);
    hide HexChar, HexValue;
    Sixteenths(v);
  }

  lemma {:induction false} Sixteenths(v: nat)
    ensures v / 4096 * 4096 + v / 256 % 16 * 256 + v / 16 % 16 * 16 + v % 16 == v
  {
    assert v / 4096 == v / 256 / 16 && v / 256 == v / 16 / 16;
  }

  /** One code unit outside the surrogates is the character it numbers. */
  lemma {:induction false} UnitReads(v: nat, upper: (bool, bool, bool, bool), rest: string)
    requires v < 0xd800 || 0xe000 <= v < 0x1_0000
    ensures ReadUnicode(FourDigits(v, upper) + rest) == Some(Token(Utf8Of(v), rest))
  {
    hide FourHex, FourDigits, Utf8Of;
    FourDigitsRead(v, upper, rest);
  }

  /** Above them a character takes two, a high and a low surrogate. */
  lemma {:induction false} PairReads(v: nat, high: (bool, bool, bool, bool), low: (bool, bool, bool, bool),
      rest: string)
    requires 0x1_0000 <= v < 0x11_0000
    ensures 0xd800 + (v - 0x1_0000) / 1024 < 0x1_0000 && 0xdc00 + (v - 0x1_0000) % 1024 < 0x1_0000
    ensures var t := FourDigits(0xd800 + (v - 0x1_0000) / 1024, high) + "\\u"
                     + FourDigits(0xdc00 + (v - 0x1_0000) % 1024, low) + rest;
            ReadUnicode(t) == Some(Token(Utf8Of(v), rest))
  {
    hide FourHex, FourDigits, Utf8Of;
    var h, l := 0xd800 + (v - 0x1_0000) / 1024, 0xdc00 + (v - 0x1_0000) % 1024;
    var a, b := FourDigits(h, high), FourDigits(l, low);
    var t := a + "\\u" + b + rest;
    FourDigitsRead(h, high, "\\u" + b + rest);
    FourDigitsRead(l, low, rest);
    assert t == a + ("\\u" + b + rest);
    assert t[4] == '\\' && t[5] == 'u' && t[6..] == b + rest && t[10..] == rest;
    assert 0x1_0000 + (h - 0xd800) * 1024 + (l - 0xdc00) == v;
  }

  // ---------- numbers with a fraction or an exponent ----------

  predicate IsFraction(f: string) { f == "" || (|f| >= 2 && f[0] == '.' && AllDigits(f[1..])) }

  predicate IsExponent(e: string) {
    || e == ""
    || (|e| >= 2 && (e[0] == 'e' || e[0] == 'E') && AllDigits(e[1..]))
    || (|e| >= 3 && (e[0] == 'e' || e[0] == 'E') && (e[1] == '+' || e[1] == '-') && AllDigits(e[2..]))
  }

  lemma {:induction false} FractionPassed(f: string, more: string)
    requires IsFraction(f) && (more == "" || (!IsDigit(more[0]) && more[0] != '.'))
    ensures AfterFraction(f + more) == more
  {
    if f == "" {
      assert f + more == more;
    } else {
      assert (f + more)[1..] == f[1..] + more;
      assert IsDigit(f[1..][0]);
      AfterDigitsOf(f[1..], more);
    }
  }

  lemma {:induction false} ExponentPassed(e: string, rest: string)
    requires IsExponent(e) && NumberEnds(rest)
    ensures AfterExponent(e + rest) == rest
  {
    if e == "" {
      assert e + rest == rest;
    } else if AllDigits(e[1..]) {
      assert IsDigit(e[1..][0]);
      assert (e + rest)[1..] == e[1..] + rest;
      AfterDigitsOf(e[1..], rest);
    } else {
      assert IsDigit(e[2..][0]);
      assert (e + rest)[2..] == e[2..] + rest;
      AfterDigitsOf(e[2..], rest);
    }
  }

  lemma {:induction false} WholePassed(n: nat, more: string)
    requires more == "" || !IsDigit(more[0])
    ensures var u := Decimal(n) + more;
            u != "" && IsDigit(u[0]) && (if u[0] == '0' then u[1..] else AfterDigits(u[1..])) == more
  {
    var d := Decimal(n);
    NoLeadingZero(n);
    hide Decimal;
    assert (d + more)[1..] == d[1..] + more && (d + more)[0] == d[0];
    if d[0] == '0' {
      assert d[1..] == "" && "" + more == more;
    } else {
      AfterDigitsOf(d[1..], more);
    }
  }

  /** A number with a fraction, an exponent or both is a float, read in full. */
  lemma {:induction false} FloatReads(negative: bool, n: nat, f: string, e: string, rest: string)
    requires IsFraction(f) && IsExponent(e) && f + e != "" && NumberEnds(rest)
    ensures var text := (if negative then "-" else "") + Decimal(n) + f + e;
            ReadNumber(text + rest) == Some(Token(Float(text), rest))
  {
    var more := f + (e + rest);
    assert more != "" && !IsDigit(more[0]) by {
      assert f == "" ==> more == e + rest;
      assert f != "" ==> more[0] == '.';
    }
    WholePassed(n, more);
    ExponentPassed(e, rest);
    assert e + rest == "" || (!IsDigit((e + rest)[0]) && (e + rest)[0] != '.') by {
      assert e == "" ==> e + rest == rest;
    }
    FractionPassed(f, e + rest);
    var d := Decimal(n);
    var text := (if negative then "-" else "") + d + f + e;
    var t, u := text + rest, d + more;
    assert |more| > |rest| by { assert |more| == |f + e| + |rest|; }
    FloatFrom(u, more, rest);
    hide Decimal, AfterDigits, AfterFraction, AfterExponent, IsFraction, IsExponent, NumberEnds, ReadMagnitude;
    hide ReadNumber;
    JoinFloat(if negative then "-" else "", d, f, e, rest);
    SignedFloat(negative, u, rest);
    assert t[..|t| - |rest|] == text;
  }

  lemma {:induction false} SignedFloat(negative: bool, u: string, rest: string)
    requires u != "" && IsDigit(u[0]) && ReadMagnitude(u) == Some(Token(None, rest))
    ensures var t := (if negative then "-" else "") + u;
            |rest| <= |t| && ReadNumber(t) == Some(Token(Float(t[..|t| - |rest|]), rest))
  {
    hide ReadMagnitude;
    var t := (if negative then "-" else "") + u;
    if negative {
      assert t[1..] == u;
    } else {
      assert t == u;
    }
  }

  lemma {:induction false} JoinFloat(a: string, b: string, c: string, d: string, e: string)
    ensures (a + b + c + d) + e == a + (b + (c + (d + e)))
  {
  }

  lemma {:induction false} FloatFrom(u: string, more: string, rest: string)
    requires u != "" && IsDigit(u[0]) && (if u[0] == '0' then u[1..] else AfterDigits(u[1..])) == more
    requires AfterExponent(AfterFraction(more)) == rest && rest != more
    ensures ReadMagnitude(u) == Some(Token(None, rest))
  {
    hide AfterDigits, AfterFraction, AfterExponent, DigitsValue, LeadingDigits;
  }
}
