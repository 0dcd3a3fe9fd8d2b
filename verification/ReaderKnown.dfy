/** The text layer of the verifier's reader pinned from outside: UTF-8 as the encodings of Unicode's scalar
    values, text-mode lines, and strip. */
module ReaderKnown {
  import opened CText
  import opened JsonText
  import opened TraceReader
  import opened Json
  import opened Verifier

  // ---------- UTF-8 ----------

  /** A Unicode scalar value: no surrogate. */
  predicate IsScalar(v: nat) { v < 0xd800 || 0xe000 <= v < 0x11_0000 }

  /** The number a well-formed sequence stands for. */
  function ScalarOf(s: string): nat
    requires CharLength(s) > 0
  {
    var n := CharLength(s);
    if n == 1 then s[0] as nat
    else if n == 2 then (s[0] as nat - 0xc0) * 64 + (s[1] as nat - 0x80)
    else if n == 3 then (s[0] as nat - 0xe0) * 4096 + (s[1] as nat - 0x80) * 64 + (s[2] as nat - 0x80)
    else (s[0] as nat - 0xf0) * 0x4_0000 + (s[1] as nat - 0x80) * 4096 + (s[2] as nat - 0x80) * 64
         + (s[3] as nat - 0x80)
  }

  lemma Digits64(v: nat)
    ensures v == v / 64 * 64 + v % 64 && v / 64 == v / 4096 * 64 + v / 64 % 64
    ensures v / 4096 == v / 0x4_0000 * 64 + v / 4096 % 64
  {
  }

  lemma OneByte(v: nat, rest: string)
    requires v < 0x80
    ensures CharLength(Utf8Of(v) + rest) == |Utf8Of(v)| == 1 && ScalarOf(Utf8Of(v) + rest) == v
  {
  }

  lemma TwoBytes(v: nat, rest: string)
    requires 0x80 <= v < 0x800
    ensures CharLength(Utf8Of(v) + rest) == |Utf8Of(v)| == 2 && ScalarOf(Utf8Of(v) + rest) == v
  {
    var s := Utf8Of(v) + rest;
    assert s[0] as nat == 0xc0 + v / 64 && s[1] as nat == 0x80 + v % 64;
    hide Utf8Of;
  }

  lemma ThreeBytes(v: nat, rest: string)
    requires 0x800 <= v < 0x1_0000 && IsScalar(v)
    ensures CharLength(Utf8Of(v) + rest) == |Utf8Of(v)| == 3 && ScalarOf(Utf8Of(v) + rest) == v
  {
    var s := Utf8Of(v) + rest;
    Digits64(v);
    assert s[0] as nat == 0xe0 + v / 4096 && s[1] as nat == 0x80 + v / 64 % 64 && s[2] as nat == 0x80 + v % 64;
    hide Utf8Of;
    ThreeFit(v / 4096, v / 64 % 64, v % 64, s);
  }

  /** Three digits to the base of 64 that make up a scalar value of three bytes. */
  lemma ThreeFit(a: nat, b: nat, c: nat, s: string)
    requires a < 16 && b < 64 && c < 64 && 0x800 <= a * 4096 + b * 64 + c && IsScalar(a * 4096 + b * 64 + c)
    requires |s| >= 3 && s[0] as nat == 0xe0 + a && s[1] as nat == 0x80 + b && s[2] as nat == 0x80 + c
    ensures CharLength(s) == 3 && ScalarOf(s) == a * 4096 + b * 64 + c
  {
  }

  lemma FourBytes(v: nat, rest: string)
    requires 0x1_0000 <= v < 0x11_0000
    ensures CharLength(Utf8Of(v) + rest) == |Utf8Of(v)| == 4 && ScalarOf(Utf8Of(v) + rest) == v
  {
    var s := Utf8Of(v) + rest;
    Digits64(v);
    assert s[0] as nat == 0xf0 + v / 0x4_0000 && s[1] as nat == 0x80 + v / 4096 % 64;
    assert s[2] as nat == 0x80 + v / 64 % 64 && s[3] as nat == 0x80 + v % 64;
    hide Utf8Of;
    FourFit(v / 0x4_0000, v / 4096 % 64, v / 64 % 64, v % 64, s);
  }

  lemma FourFit(a: nat, b: nat, c: nat, d: nat, s: string)
    requires a < 5 && b < 64 && c < 64 && d < 64
    requires 0x1_0000 <= a * 0x4_0000 + b * 4096 + c * 64 + d < 0x11_0000
    requires |s| >= 4 && s[0] as nat == 0xf0 + a && s[1] as nat == 0x80 + b && s[2] as nat == 0x80 + c
    requires s[3] as nat == 0x80 + d
    ensures CharLength(s) == 4 && ScalarOf(s) == a * 0x4_0000 + b * 4096 + c * 64 + d
  {
  }

  /** Every scalar value's encoding is one well-formed sequence, whatever follows. */
  lemma EncodingIsWellFormed(v: nat, rest: string)
    requires IsScalar(v)
    ensures CharLength(Utf8Of(v) + rest) == |Utf8Of(v)| > 0
    ensures ScalarOf(Utf8Of(v) + rest) == v
  {
    hide Utf8Of, CharLength, ScalarOf;
    if v < 0x80 {
      OneByte(v, rest);
    } else if v < 0x800 {
      TwoBytes(v, rest);
    } else if v < 0x1_0000 {
      ThreeBytes(v, rest);
    } else {
      FourBytes(v, rest);
    }
  }

  lemma LengthBounds(s: string)
    ensures CharLength(s) <= 4 && CharLength(s) <= |s|
    ensures CharLength(s) == 2 ==> 0xc2 <= s[0] as nat <= 0xdf && 0x80 <= s[1] as nat <= 0xbf
    ensures CharLength(s) == 3 ==>
              && 0xe0 <= s[0] as nat <= 0xef && 0x80 <= s[1] as nat <= 0xbf && 0x80 <= s[2] as nat <= 0xbf
              && (s[0] as nat == 0xe0 ==> 0xa0 <= s[1] as nat) && (s[0] as nat == 0xed ==> s[1] as nat < 0xa0)
    ensures CharLength(s) == 4 ==>
              && 0xf0 <= s[0] as nat <= 0xf4 && 0x80 <= s[1] as nat <= 0xbf && 0x80 <= s[2] as nat <= 0xbf
              && 0x80 <= s[3] as nat <= 0xbf
              && (s[0] as nat == 0xf0 ==> 0x90 <= s[1] as nat) && (s[0] as nat == 0xf4 ==> s[1] as nat < 0x90)
    ensures CharLength(s) == 1 ==> s[0] as nat < 0x80
  {
  }

  lemma TwoDigits(a: nat, b: nat)
    requires b < 64
    ensures (a * 64 + b) / 64 == a && (a * 64 + b) % 64 == b
  {
  }

  lemma WellFormedTwo(s: string)
    requires CharLength(s) == 2
    ensures s[..2] == Utf8Of(ScalarOf(s)) && 0x80 <= ScalarOf(s) < 0x800
  {
    LengthBounds(s);
    var v := ScalarOf(s);
    TwoDigits(s[0] as nat - 0xc0, s[1] as nat - 0x80);
    hide CharLength, ScalarOf;
    assert Utf8Of(v)[0] == s[0] && Utf8Of(v)[1] == s[1];
  }

  lemma WellFormedThree(s: string)
    requires CharLength(s) == 3
    ensures s[..3] == Utf8Of(ScalarOf(s)) && 0x800 <= ScalarOf(s) < 0x1_0000 && IsScalar(ScalarOf(s))
  {
    LengthBounds(s);
    var v, a, b, c := ScalarOf(s), s[0] as nat - 0xe0, s[1] as nat - 0x80, s[2] as nat - 0x80;
    assert v == (a * 64 + b) * 64 + c;
    hide CharLength, ScalarOf;
    TwoDigits(a * 64 + b, c);
    TwoDigits(a, b);
    Digits64(v);
    assert Utf8Of(v)[0] == s[0] && Utf8Of(v)[1] == s[1] && Utf8Of(v)[2] == s[2];
  }

  lemma FourEncoded(a: nat, b: nat, c: nat, d: nat)
    requires a < 5 && b < 64 && c < 64 && d < 64
    requires 0x1_0000 <= ((a * 64 + b) * 64 + c) * 64 + d < 0x11_0000
    ensures Utf8Of(((a * 64 + b) * 64 + c) * 64 + d)
         == [(0xf0 + a) as char, (0x80 + b) as char, (0x80 + c) as char, (0x80 + d) as char]
  {
    var v := ((a * 64 + b) * 64 + c) * 64 + d;
    TwoDigits((a * 64 + b) * 64 + c, d);
    TwoDigits(a * 64 + b, c);
    TwoDigits(a, b);
    Thirds(v);
  }

  lemma WellFormedFour(s: string)
    requires CharLength(s) == 4
    ensures s[..4] == Utf8Of(ScalarOf(s)) && 0x1_0000 <= ScalarOf(s) < 0x11_0000
  {
    LengthBounds(s);
    var v, a, b := ScalarOf(s), s[0] as nat - 0xf0, s[1] as nat - 0x80;
    var c, d := s[2] as nat - 0x80, s[3] as nat - 0x80;
    assert v == ((a * 64 + b) * 64 + c) * 64 + d;
    hide CharLength, ScalarOf, Utf8Of;
    FourEncoded(a, b, c, d);
  }

  lemma Thirds(v: nat)
    ensures v / 4096 == v / 64 / 64 && v / 0x4_0000 == v / 64 / 64 / 64
  {
  }

  /** And every well-formed sequence is the encoding of a scalar value, so there are no others: no overlong
      form, no surrogate, nothing above 0x10ffff. */
  lemma WellFormedIsEncoding(s: string)
    requires CharLength(s) > 0
    ensures IsScalar(ScalarOf(s)) && s[..CharLength(s)] == Utf8Of(ScalarOf(s))
  {
    LengthBounds(s);
    var n := CharLength(s);
    if n == 1 {
      assert ScalarOf(s) == s[0] as nat;
    } else {
      hide ScalarOf, CharLength, Utf8Of;
      if n == 2 {
        WellFormedTwo(s);
      } else if n == 3 {
        WellFormedThree(s);
      } else {
        WellFormedFour(s);
      }
    }
  }

  /** The encodings of some scalar values in a row. */
  function Encoded(vs: seq<nat>): string
    requires forall i :: 0 <= i < |vs| ==> IsScalar(vs[i])
  {
    if vs == [] then ""
    else
      assert IsScalar(vs[0]);
      Utf8Of(vs[0]) + Encoded(vs[1..])
  }

  /** Text is well-formed exactly when it is that. */
  lemma {:induction false} EncodedIsUtf8(vs: seq<nat>)
    requires forall i :: 0 <= i < |vs| ==> IsScalar(vs[i])
    ensures Utf8(Encoded(vs))
  {
    hide Utf8Of, CharLength, ScalarOf;
    if vs != [] {
      var c, rest := Utf8Of(vs[0]), Encoded(vs[1..]);
      EncodingIsWellFormed(vs[0], rest);
      EncodedIsUtf8(vs[1..]);
      assert (c + rest)[|c|..] == rest;
    }
  }

  lemma {:induction false} Utf8IsEncoded(s: string) returns (vs: seq<nat>)
    requires Utf8(s)
    ensures forall i :: 0 <= i < |vs| ==> IsScalar(vs[i])
    ensures Encoded(vs) == s
    decreases |s|
  {
    hide Utf8Of, CharLength, ScalarOf;
    if s == "" {
      vs := [];
    } else {
      WellFormedIsEncoding(s);
      var more := Utf8IsEncoded(s[CharLength(s)..]);
      vs := [ScalarOf(s)] + more;
      assert vs[1..] == more;
      assert s == s[..CharLength(s)] + s[CharLength(s)..];
    }
  }

  // ---------- text-mode lines ----------

  /** A line ends at a newline, a carriage return, or the two together, which are one end; the last one
      may have none. */
  lemma {:induction false} LineEndings(l: string, rest: string)
    requires !HoldsNewline(l)
    ensures NextLine(l + "\n" + rest) == (l, rest) && NextLine(l + "\r\n" + rest) == (l, rest)
    ensures (rest == "" || rest[0] != '\n') ==> NextLine(l + "\r" + rest) == (l, rest)
    ensures NextLine(l) == (l, "")
  {
    var x, y, z := l + "\n" + rest, l + "\r\n" + rest, l + "\r" + rest;
    if l == "" {
      assert x[1..] == rest && y[2..] == rest && z[1..] == rest;
    } else {
      assert l[0] in l && l == [l[0]] + l[1..];
      assert forall c :: c in l[1..] ==> c in l;
      assert x[1..] == l[1..] + "\n" + rest && y[1..] == l[1..] + "\r\n" + rest && z[1..] == l[1..] + "\r" + rest;
      LineEndings(l[1..], rest);
    }
  }

  // ---------- strip ----------

  predicate AllSpaces(s: string) { forall i :: 0 <= i < |s| ==> IsSpaceChar(s[i]) }

  /** ASCII whitespace as Python has it: tab to carriage return, the four separators, and the space. */
  lemma SpaceChars(c: char)
    ensures IsSpaceChar(c) <==> c as nat in {9, 10, 11, 12, 13, 28, 29, 30, 31, 32}
  {
  }

  lemma {:induction false} RightStripped(s: string, b: string)
    requires AllSpaces(b) && (s == "" || !IsSpaceChar(s[|s| - 1]))
    ensures StripRight(s + b) == s
  {
    if b == "" {
      assert s + b == s;
    } else {
      var n := |b| - 1;
      assert (s + b)[..|s + b| - 1] == s + b[..n];
      RightStripped(s, b[..n]);
    }
  }

  lemma {:induction false} LeftStripped(a: string, s: string)
    requires AllSpaces(a) && (s == "" || !IsSpaceChar(s[0]))
    ensures StripLeft(a + s) == s
  {
    if a == "" {
      assert a + s == s;
    } else {
      assert (a + s)[1..] == a[1..] + s;
      LeftStripped(a[1..], s);
    }
  }

  /** strip takes the spaces on both sides and nothing else; of spaces alone it leaves nothing. */
  lemma Stripped(a: string, s: string, b: string)
    requires AllSpaces(a) && AllSpaces(b) && (s == "" || (!IsSpaceChar(s[0]) && !IsSpaceChar(s[|s| - 1])))
    ensures Strip(a + s + b) == s
  {
    hide StripLeft, StripRight, IsSpaceChar;
    if s == "" {
      assert a + s + b == "" + (a + b) && AllSpaces(a + b);
      RightStripped("", a + b);
      LeftStripped("", "");
      assert "" + "" == "";
    } else {
      assert (a + s)[|a + s| - 1] == s[|s| - 1];
      RightStripped(a + s, b);
      LeftStripped(a, s);
    }
  }

  // ---------- the first line that is no JSON ----------

  function Ended(lines: seq<string>): string {
    if lines == [] then "" else lines[0] + "\n" + Ended(lines[1..])
  }

  /** Lines that stop nobody: blank ones and events. */
  predicate Fine(lines: seq<string>) {
    forall i :: 0 <= i < |lines| ==>
      !HoldsNewline(lines[i]) && (ReadLine(lines[i]).Blank? || ReadLine(lines[i]).Decoded?)
  }

  function EventsIn(lines: seq<string>): seq<JsonEvent> {
    if lines == [] then []
    else (if ReadLine(lines[0]).Decoded? then [ReadLine(lines[0]).event] else []) + EventsIn(lines[1..])
  }

  lemma TraceFirst(line: string, rest: string, lineNo: nat)
    requires !HoldsNewline(line)
    ensures ReadTrace(line + "\n" + rest, lineNo) ==
            match ReadLine(line)
            case Blank => ReadTrace(rest, lineNo + 1)
            case Undecodable => Some(Trace([], Some(lineNo)))
            case Foreign => None
            case Decoded(e) => Preceded(e, ReadTrace(rest, lineNo + 1))
  {
    hide ReadLine, NextLine;
    NextLineOf(line, rest);
  }

  lemma {:induction false} TraceAfter(front: seq<string>, rest: string, lineNo: nat)
    requires Fine(front)
    ensures ReadTrace(Ended(front) + rest, lineNo) ==
            match ReadTrace(rest, lineNo + |front|)
            case None => None
            case Some(t) => Some(Trace(EventsIn(front) + t.events, t.failed))
  {
    hide ReadLine, ReadTrace, NextLine, HoldsNewline;
    if front == [] {
      assert Ended(front) + rest == rest;
      match ReadTrace(rest, lineNo)
      case None =>
      case Some(t) => assert [] + t.events == t.events;
    } else {
      var l, others := front[0], front[1..];
      TraceFirst(l, Ended(others) + rest, lineNo);
      assert Ended(front) + rest == l + "\n" + (Ended(others) + rest);
      TraceAfter(others, rest, lineNo + 1);
      match ReadTrace(rest, lineNo + |front|)
      case None =>
      case Some(t) =>
        if ReadLine(l).Decoded? {
          assert [ReadLine(l).event] + (EventsIn(others) + t.events) == EventsIn(front) + t.events;
        } else {
          assert [] + EventsIn(others) == EventsIn(others);
        }
    }
  }

  lemma BadLineEnds(front: seq<string>, bad: string, rest: string)
    requires Fine(front) && !HoldsNewline(bad) && ReadLine(bad).Undecodable?
    ensures ReadTrace(Ended(front) + (bad + "\n" + rest), 1) == Some(Trace(EventsIn(front), Some(|front| + 1)))
  {
    hide ReadLine, ReadTrace, HoldsNewline, Fine, Ended, EventsIn;
    TraceFirst(bad, rest, 1 + |front|);
    TraceAfter(front, bad + "\n" + rest, 1);
    assert EventsIn(front) + [] == EventsIn(front);
  }

  lemma OddLineEnds(front: seq<string>, odd: string, rest: string)
    requires Fine(front) && !HoldsNewline(odd) && ReadLine(odd).Foreign?
    ensures ReadTrace(Ended(front) + (odd + "\n" + rest), 1) == None
  {
    hide ReadLine, ReadTrace, HoldsNewline, Fine, Ended, EventsIn;
    TraceFirst(odd, rest, 1 + |front|);
    TraceAfter(front, odd + "\n" + rest, 1);
  }

  lemma LineIs(line: string)
    requires Strip(line) != ""
    ensures Loads(Strip(line)).None? ==> ReadLine(line).Undecodable?
    ensures Loads(Strip(line)).Some? && !Loads(Strip(line)).value.Object? ==> ReadLine(line).Foreign?
  {
    hide Strip, Loads;
  }

  /** The verifier puts a TRACE_ERROR that bears the line's number in the place of the first line that is no JSON
      and all behind it; the analyzer puts nothing. */
  lemma StandsIn(front: seq<string>, bad: string, rest: string, ahead: nat)
    requires Fine(front) && !HoldsNewline(bad) && Strip(bad) != "" && Loads(Strip(bad)).None?
    requires Decodable(Ended(front) + (bad + "\n" + rest), ahead)
    ensures LoadEvents(Ended(front) + (bad + "\n" + rest), ahead) ==
            Some(EventsIn(front) + [JsonEvent(Some("TRACE_ERROR"), Some("json_decode_error"), Some(|front| + 1), None,
                                              None, None, None)])
    ensures LoadQuietly(Ended(front) + (bad + "\n" + rest), ahead) == Some(EventsIn(front))
  {
    hide ReadLine, ReadTrace, Strip, Loads, Decodable, HoldsNewline, Fine, Ended, EventsIn;
    LineIs(bad);
    BadLineEnds(front, bad, rest);
  }

  /** A line that is JSON but no object is not taken for broken: asking it for its members raises. */
  lemma NoObjectRaises(front: seq<string>, odd: string, rest: string, ahead: nat)
    requires Fine(front) && !HoldsNewline(odd) && Strip(odd) != "" && Loads(Strip(odd)).Some?
    requires !Loads(Strip(odd)).value.Object?
    ensures LoadEvents(Ended(front) + (odd + "\n" + rest), ahead).None?
    ensures LoadQuietly(Ended(front) + (odd + "\n" + rest), ahead).None?
  {
    hide ReadLine, ReadTrace, Strip, Loads, Decodable, HoldsNewline, Fine, Ended, EventsIn;
    LineIs(odd);
    OddLineEnds(front, odd, rest);
  }
}
