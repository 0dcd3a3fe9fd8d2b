/** adr_json_escape (src/common/util.c) and a reader of JSON strings in the sense of section 7 of
    RFC 8259.  A char stands for one byte; bytes from 0x80 up pass through both unchanged. */
module JsonText {
  import opened CText
  import Hash

  predicate NeedsEscape(c: char) { c == '\\' || c == '"' || c < ' ' }

  function EscapeChar(c: char): (r: string)
    ensures if NeedsEscape(c) then |r| >= 2 && r[0] == '\\' else r == [c]
  {
    if c == '\\' then "\\\\"
    else if c == '"' then "\\\""
    else if c == '\n' then "\\n"
    else if c == '\r' then "\\r"
    else if c == '\t' then "\\t"
    else if c < ' ' then "\\u00" + [Hash.HexDigit(c as nat / 16), Hash.HexDigit(c as nat % 16)]
    else [c]
  }

  function EscapeBody(s: string): string {
    if s == "" then "" else EscapeChar(s[0]) + EscapeBody(s[1..])
  }

  function Escape(s: string): string { "\"" + EscapeBody(s) + "\"" }

  /** The C string that starts at a pointer: what precedes the first NUL. */
  function CString(memory: string): string { OrElse(Before(memory, '\0'), memory) }

  lemma {:induction false} EscapeBodyConcat(a: string, b: string)
    ensures EscapeBody(a + b) == EscapeBody(a) + EscapeBody(b)
  {
    if a == "" {
      assert a + b == b;
    } else {
      assert (a + b)[1..] == a[1..] + b;
      EscapeBodyConcat(a[1..], b);
    }
  }

  /** None stands for a null pointer. */
  method JsonEscape(s: Option<string>) returns (out: string)
    requires s.Some? ==> '\0' in s.value
    ensures out == Escape(if s.Some? then CString(s.value) else "")
  {
    hide EscapeChar, EscapeBody, Before;
    out := "\"";
    ghost var text := "";
    assert out == "\"" + EscapeBody("") by { EscapeNothing(); }
    if s.Some? {
      var i := 0;
      while s.value[i] != '\0'
        invariant i < |s.value| && Lacks(s.value[..i], '\0')
        invariant out == "\"" + EscapeBody(s.value[..i])
        decreases |s.value| - i
      {
        assert s.value[..i + 1] == s.value[..i] + [s.value[i]];
        EscapeBodyConcat(s.value[..i], [s.value[i]]);
        EscapeOne(s.value[i]);
        assert exists k :: i < k < |s.value| && s.value[k] == '\0' by {
          assert s.value == s.value[..i + 1] + s.value[i + 1..];
        }
        out := out + EscapeChar(s.value[i]);
        i := i + 1;
      }
      text := s.value[..i];
      assert s.value == text + ['\0'] + s.value[i + 1..];
      BeforeFirst(text, '\0', s.value[i + 1..]);
    }
    out := out + "\"";
  }

  lemma EscapeNothing()
    ensures EscapeBody("") == ""
  {
  }

  lemma EscapeOne(c: char)
    ensures EscapeBody([c]) == EscapeChar(c)
  {
    assert [c][1..] == "";
  }

  // ---------- reading a JSON string back ----------

  function HexValue(c: char): Option<nat> {
    if '0' <= c <= '9' then Some(c as nat - '0' as nat)
    else if 'a' <= c <= 'f' then Some(c as nat - 'a' as nat + 10)
    else if 'A' <= c <= 'F' then Some(c as nat - 'A' as nat + 10)
    else None
  }

  /** The number four hex digits stand for. */
  function FourHex(t: string): (r: Option<nat>)
    ensures r.Some? ==> |t| >= 4 && r.value < 0x1_0000
  {
    if |t| < 4 || HexValue(t[0]).None? || HexValue(t[1]).None? || HexValue(t[2]).None? || HexValue(t[3]).None? then None
    else
      Some(HexValue(t[0]).value * 4096 + HexValue(t[1]).value * 256 + HexValue(t[2]).value * 16 + HexValue(t[3]).value)
  }

  /** The bytes of a code point in UTF-8; a lone surrogate is written like any other. */
  function Utf8Of(v: nat): string
    requires v < 0x11_0000
  {
    if v < 0x80 then [v as char]
    else if v < 0x800 then [(0xc0 + v / 64) as char, (0x80 + v % 64) as char]
    else if v < 0x1_0000 then [(0xe0 + v / 4096) as char, (0x80 + v / 64 % 64) as char, (0x80 + v % 64) as char]
    else
      [(0xf0 + v / 0x4_0000) as char, (0x80 + v / 4096 % 64) as char, (0x80 + v / 64 % 64) as char,
       (0x80 + v % 64) as char]
  }

  datatype Token<T> = Token(value: T, rest: string)

  /** What follows \u: one code unit, or the two of a surrogate pair. */
  function ReadUnicode(t: string): (r: Option<Token<string>>)
    ensures r.Some? ==> |r.value.rest| < |t|
  {
    match FourHex(t)
    case None => None
    case Some(v) =>
      var low := if |t| >= 6 && t[4] == '\\' && t[5] == 'u' then FourHex(t[6..]) else None;
      if 0xd800 <= v < 0xdc00 && low.Some? && 0xdc00 <= low.value < 0xe000
      then Some(Token(Utf8Of(0x1_0000 + (v - 0xd800) * 1024 + (low.value - 0xdc00)), t[10..]))
      else Some(Token(Utf8Of(v), t[4..]))
  }

  /** What follows a backslash. */
  function ReadEscape(t: string): (r: Option<Token<string>>)
    ensures r.Some? ==> |r.value.rest| < |t|
  {
    if t == "" then None
    else if t[0] in "\"\\/" then Some(Token([t[0]], t[1..]))
    else if t[0] == 'b' then Some(Token([8 as char], t[1..]))
    else if t[0] == 'f' then Some(Token([12 as char], t[1..]))
    else if t[0] == 'n' then Some(Token("\n", t[1..]))
    else if t[0] == 'r' then Some(Token("\r", t[1..]))
    else if t[0] == 't' then Some(Token("\t", t[1..]))
    else if t[0] == 'u' then ReadUnicode(t[1..])
    else None
  }

  /** The string whose text starts at t, just after the opening quote, and what follows it. */
  function ReadString(t: string): (r: Option<Token<string>>)
    ensures r.Some? ==> |r.value.rest| < |t|
    decreases |t|
  {
    if t == "" || t[0] < ' ' then None
    else if t[0] == '"' then Some(Token("", t[1..]))
    else if t[0] == '\\' then
      (match ReadEscape(t[1..])
       case None => None
       case Some(e) => Onto(e.value, ReadString(e.rest)))
    else Onto([t[0]], ReadString(t[1..]))
  }

  /** The same text with more in front. */
  function Onto(front: string, r: Option<Token<string>>): Option<Token<string>> {
    if r.Some? then Some(Token(front + r.value.value, r.value.rest)) else None
  }

  lemma EscapeCharReads(c: char, rest: string)
    ensures ReadString(EscapeChar(c) + rest) == Onto([c], ReadString(rest))
  {
    var t := EscapeChar(c) + rest;
    if NeedsEscape(c) {
      if c < ' ' && c != '\n' && c != '\r' && c != '\t' {
        ControlReads(c, rest);
      } else {
        assert t[1..] == [t[1]] + rest && t[1..][1..] == rest;
      }
    } else {
      assert t[1..] == rest;
    }
  }

  lemma HexDigitValue(n: nat)
    requires n < 16
    ensures HexValue(Hash.HexDigit(n)) == Some(n)
  {
  }

  lemma ControlReads(c: char, rest: string)
    requires c < ' ' && c != '\n' && c != '\r' && c != '\t'
    ensures ReadString(EscapeChar(c) + rest) == Onto([c], ReadString(rest))
  {
    var t := EscapeChar(c) + rest;
    var hi, lo := Hash.HexDigit(c as nat / 16), Hash.HexDigit(c as nat % 16);
    HexDigitValue(0);
    HexDigitValue(c as nat / 16);
    HexDigitValue(c as nat % 16);
    hide HexValue, ReadString;
    assert Hash.HexDigit(0) == '0';
    assert t[1..][1..] == ['0', '0', hi, lo] + rest;
    assert t[1..][1..][4..] == rest;
    assert ReadUnicode(t[1..][1..]) == Some(Token([c], rest));
    assert ReadEscape(t[1..]) == Some(Token([c], rest));
    ReadBackslash(t, c, rest);
  }

  lemma ReadBackslash(t: string, c: char, rest: string)
    requires t != "" && t[0] == '\\' && ReadEscape(t[1..]) == Some(Token([c], rest))
    ensures ReadString(t) == Onto([c], ReadString(rest))
  {
  }

  /** Section 7 of RFC 8259 reads the escaped text back to exactly the string, and stops at its
      closing quote, whatever follows. */
  lemma {:induction false} EscapeReads(s: string, rest: string)
    ensures ReadString(EscapeBody(s) + "\"" + rest) == Some(Token(s, rest))
  {
    hide EscapeChar;
    if s == "" {
      assert EscapeBody(s) + "\"" + rest == "\"" + rest;
      assert ("\"" + rest)[1..] == rest;
    } else {
      var more := EscapeBody(s[1..]) + "\"" + rest;
      assert EscapeBody(s) + "\"" + rest == EscapeChar(s[0]) + more;
      EscapeCharReads(s[0], more);
      EscapeReads(s[1..], rest);
      assert [s[0]] + s[1..] == s;
    }
  }

  // ---------- text printed between quotes without escaping it ----------

  /** s can stand between quotes as it is: no quote, no control char, and every backslash starts an
      escape that s completes. */
  predicate Inside(s: string)
    decreases |s|
  {
    s == "" ||
    if s[0] == '\\' then ReadEscape(s[1..]).Some? && Inside(ReadEscape(s[1..]).value.rest)
    else s[0] != '"' && s[0] >= ' ' && Inside(s[1..])
  }

  /** What it then reads as. */
  function InsideValue(s: string): string
    requires Inside(s)
    decreases |s|
  {
    if s == "" then ""
    else if s[0] == '\\' then ReadEscape(s[1..]).value.value + InsideValue(ReadEscape(s[1..]).value.rest)
    else [s[0]] + InsideValue(s[1..])
  }

  /** A quote after the text does not change how its escapes read. */
  lemma EscapeIsLocal(t: string, rest: string)
    ensures t != "" && ReadEscape(t).None? ==> ReadEscape(t + "\"" + rest).None?
    ensures ReadEscape(t).Some? ==>
              ReadEscape(t + "\"" + rest)
              == Some(Token(ReadEscape(t).value.value, ReadEscape(t).value.rest + "\"" + rest))
  {
    hide Utf8Of, HexValue;
    if t != "" {
      var all := t + "\"" + rest;
      assert all[1..] == t[1..] + "\"" + rest;
      UnicodeIsLocal(t[1..], rest);
    }
  }

  lemma QuoteIsNoHex()
    ensures HexValue('"') == None
  {
  }

  lemma HexIsLocal(t: string, rest: string)
    ensures FourHex(t + "\"" + rest) == FourHex(t)
  {
    QuoteIsNoHex();
    hide HexValue;
    var all := t + "\"" + rest;
    assert all[|t|] == '"';
    assert forall i :: 0 <= i < |t| ==> all[i] == t[i];
  }

  lemma UnicodeIsLocal(t: string, rest: string)
    ensures var r := ReadUnicode(t);
            ReadUnicode(t + "\"" + rest) ==
            if r.None? then None else Some(Token(r.value.value, r.value.rest + "\"" + rest))
  {
    hide FourHex, Utf8Of;
    var all := t + "\"" + rest;
    HexIsLocal(t, rest);
    if FourHex(t).Some? {
      assert |t| >= 4 by { FourHexLong(t); }
      assert all[4..] == t[4..] + "\"" + rest;
      if |t| >= 6 {
        HexIsLocal(t[6..], rest);
        assert all[6..] == t[6..] + "\"" + rest;
        if FourHex(t[6..]).Some? {
          FourHexLong(t[6..]);
          assert all[10..] == t[10..] + "\"" + rest;
        }
      } else {
        assert all[4] != '\\' || all[5] == '"';
      }
    }
  }

  lemma FourHexLong(t: string)
    requires FourHex(t).Some?
    ensures |t| >= 4
  {
  }

  /** Such a text between quotes reads as its value, and the reader stops at the second quote. */
  lemma {:induction false} InsideReads(s: string, rest: string)
    requires Inside(s)
    ensures ReadString(s + "\"" + rest) == Some(Token(InsideValue(s), rest))
    decreases |s|
  {
    hide ReadEscape;
    var all := s + "\"" + rest;
    if s == "" {
      assert all == "\"" + rest && all[1..] == rest;
    } else {
      assert all[1..] == s[1..] + "\"" + rest;
      if s[0] == '\\' {
        EscapeIsLocal(s[1..], rest);
        InsideReads(ReadEscape(s[1..]).value.rest, rest);
      } else {
        InsideReads(s[1..], rest);
      }
    }
  }

  /** A text without quotes that is not of that kind: the reader fails, or its second quote is taken
      for an escaped one and it goes on to the next. */
  lemma {:induction false} BrokenReads(s: string, rest: string)
    requires Lacks(s, '"') && !Inside(s)
    ensures var r := ReadString(s + "\"" + rest);
            r.None? || (ReadString(rest).Some? && r.value.rest == ReadString(rest).value.rest)
    decreases |s|
  {
    hide ReadEscape;
    var all := s + "\"" + rest;
    assert all[0] == s[0] && s[0] in s;
    assert all[1..] == s[1..] + "\"" + rest;
    if s[0] == '\\' {
      EscapeIsLocal(s[1..], rest);
      if s[1..] == "" {
        assert all[1..] == "\"" + rest;
        QuoteEscape(rest);
      } else if ReadEscape(s[1..]).Some? {
        EscapeRestIsPart(s[1..]);
        assert forall c :: c in s[1..] ==> c in s;
        BrokenReads(ReadEscape(s[1..]).value.rest, rest);
      }
    } else if s[0] >= ' ' {
      assert forall c :: c in s[1..] ==> c in s;
      BrokenReads(s[1..], rest);
    }
  }

  lemma QuoteEscape(rest: string)
    ensures ReadEscape("\"" + rest) == Some(Token("\"", rest))
  {
    assert ("\"" + rest)[1..] == rest;
  }

  lemma EscapeRestIsPart(t: string)
    ensures ReadEscape(t).Some? ==> forall c :: c in ReadEscape(t).value.rest ==> c in t
  {
    hide HexValue, Utf8Of;
  }

  /** Without a closing quote there is no string. */
  lemma {:induction false} Unterminated(s: string)
    requires Lacks(s, '"')
    ensures ReadString(s) == None
    decreases |s|
  {
    if s != "" {
      assert s[0] in s;
      assert forall c :: c in s[1..] ==> c in s;
      if s[0] == '\\' {
        EscapeRestIsPart(s[1..]);
        if ReadEscape(s[1..]).Some? {
          Unterminated(ReadEscape(s[1..]).value.rest);
        }
      } else {
        Unterminated(s[1..]);
      }
    }
  }

  // ---------- where quotes can stand in an escaped text ----------

  predicate Plain(s: string) { forall i :: 0 <= i < |s| ==> !NeedsEscape(s[i]) }

  lemma {:induction false} PlainUnchanged(s: string)
    requires Plain(s)
    ensures EscapeBody(s) == s
  {
    if s != "" {
      PlainUnchanged(s[1..]);
      assert [s[0]] + s[1..] == s;
    }
  }

  /** Plain text stands between quotes as itself. */
  lemma {:induction false} PlainInside(s: string)
    requires Plain(s)
    ensures Inside(s) && InsideValue(s) == s
  {
    if s != "" {
      PlainInside(s[1..]);
      assert [s[0]] + s[1..] == s;
    }
  }

  /** Escaping only ever lengthens, and keeps the length only of plain text. */
  lemma {:induction false} EscapeLonger(s: string)
    ensures |EscapeBody(s)| >= |s| && (|EscapeBody(s)| == |s| <==> Plain(s))
  {
    hide EscapeChar;
    if s != "" {
      EscapeLonger(s[1..]);
      assert s == [s[0]] + s[1..];
      assert Plain(s) <==> !NeedsEscape(s[0]) && Plain(s[1..]) by {
        assert forall i :: 0 <= i < |s[1..]| ==> s[1..][i] == s[i + 1];
        assert forall i :: 0 < i < |s| ==> s[i] == s[1..][i - 1];
      }
    }
  }

  /** No control char is left. */
  lemma {:induction false} EscapedPrintable(s: string)
    ensures forall i :: 0 <= i < |EscapeBody(s)| ==> EscapeBody(s)[i] >= ' '
  {
    if s != "" {
      EscapedPrintable(s[1..]);
    }
  }

  /** A plain word and its quote begin an escaped text and its closing quote only if they are it. */
  lemma {:induction false} EscapedWord(w: string, x: string, s: string, y: string)
    requires Plain(w)
    ensures w + "\"" + x <= EscapeBody(s) + "\"" + y ==> w == s && x <= y
  {
    hide EscapeChar;
    var l, r := w + "\"" + x, EscapeBody(s) + "\"" + y;
    assert l[0] == if w == "" then '"' else w[0];
    if l <= r {
      if s == "" {
        assert r == "\"" + y;
        assert l[0] == r[0] == '"';
        assert l == "\"" + x;
        assert x == l[1..] && y == r[1..];
      } else {
        var more := EscapeBody(s[1..]) + "\"" + y;
        assert r == EscapeChar(s[0]) + more;
        assert l[0] == r[0] == EscapeChar(s[0])[0];
        if w == "" {
          assert false;
        } else {
          assert !NeedsEscape(s[0]);
          assert l[1..] == w[1..] + "\"" + x && r[1..] == more;
          EscapedWord(w[1..], x, s[1..], y);
          assert w == [w[0]] + w[1..] && s == [s[0]] + s[1..];
        }
      }
    }
  }

  /** Looking for a quoted plain word passes over an escaped text and its closing quote. */
  lemma {:induction false} FindSkipsEscaped(w: string, x: string, s: string, y: string)
    requires Plain(w) && w != "" && !(w + "\"" + x <= y) && !(x <= y)
    ensures FindAfter(EscapeBody(s) + "\"" + y, "\"" + w + "\"" + x) == FindAfter(y, "\"" + w + "\"" + x)
  {
    hide EscapeChar;
    var needle := "\"" + w + "\"" + x;
    if s == "" {
      assert EscapeBody(s) + "\"" + y == "\"" + y;
      QuoteSkipped(w, x, y);
    } else {
      var more := EscapeBody(s[1..]) + "\"" + y;
      assert EscapeBody(s) + "\"" + y == EscapeChar(s[0]) + more;
      FindSkipsEscaped(w, x, s[1..], y);
      if s[0] == '"' {
        assert EscapeChar('"') == "\\" + "\"" by { QuoteEscaped(); }
        assert EscapeChar(s[0]) + more == "\\" + ("\"" + more);
        FindSkips("\\", "\"" + more, needle);
        EscapedWord(w, x, s[1..], y);
        QuoteSkipped(w, x, more);
      } else {
        EscapeWithoutQuote(s[0]);
        FindSkips(EscapeChar(s[0]), more, needle);
      }
    }
  }

  lemma QuoteEscaped()
    ensures EscapeChar('"') == "\\" + "\""
  {
  }

  lemma EscapeWithoutQuote(c: char)
    requires c != '"'
    ensures Lacks(EscapeChar(c), '"')
  {
  }

  lemma QuoteSkipped(w: string, x: string, y: string)
    requires !(w + "\"" + x <= y)
    ensures FindAfter("\"" + y, "\"" + w + "\"" + x) == FindAfter(y, "\"" + w + "\"" + x)
  {
    var needle := "\"" + w + "\"" + x;
    assert ("\"" + y)[1..] == y && needle[1..] == w + "\"" + x;
    assert needle <= "\"" + y <==> w + "\"" + x <= y by {
      assert "\"" + (w + "\"" + x) == needle;
    }
  }
}
