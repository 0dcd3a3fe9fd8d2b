/** json.loads on one line: the whole grammar of RFC 8259, with the three number names Python adds. */
module Json {
  import opened CText
  import opened JsonText

  datatype Value =
    | Null | Bool(b: bool) | Integer(n: int) | Float(text: string) | JString(s: string)
    | Array(items: seq<Value>) | Object(members: seq<Member>)

  datatype Member = Member(key: string, value: Value)

  predicate IsJsonSpace(c: char) { c == ' ' || c == '\t' || c == '\n' || c == '\r' }

  function SkipSpace(t: string): (r: string)
    ensures |r| <= |t|
  {
    if t != "" && IsJsonSpace(t[0]) then SkipSpace(t[1..]) else t
  }

  // ---------- numbers ----------

  function AfterDigits(t: string): (r: string)
    ensures |r| <= |t|
  {
    if t != "" && IsDigit(t[0]) then AfterDigits(t[1..]) else t
  }

  /** A point and at least one digit. */
  function AfterFraction(t: string): (r: string)
    ensures |r| <= |t|
  {
    if |t| >= 2 && t[0] == '.' && IsDigit(t[1]) then AfterDigits(t[1..]) else t
  }

  function AfterExponent(t: string): (r: string)
    ensures |r| <= |t|
  {
    if |t| >= 2 && (t[0] == 'e' || t[0] == 'E') then
      if IsDigit(t[1]) then AfterDigits(t[1..])
      else if |t| >= 3 && (t[1] == '+' || t[1] == '-') && IsDigit(t[2]) then AfterDigits(t[2..])
      else t
    else t
  }

  /** An unsigned number without leading zeros; with a fraction or an exponent it is no integer. */
  function ReadMagnitude(u: string): (r: Option<Token<Option<nat>>>)
    ensures r.Some? ==> |r.value.rest| < |u|
  {
    if u == "" || !IsDigit(u[0]) then None
    else
      var whole := if u[0] == '0' then u[1..] else AfterDigits(u[1..]);
      var end := AfterExponent(AfterFraction(whole));
      if end != whole then Some(Token(None, end))
      else Some(Token(Some(if u[0] == '0' then 0 else DigitsValue(LeadingDigits(u))), whole))
  }

  function ReadNumber(t: string): (r: Option<Token<Value>>)
    ensures r.Some? ==> |r.value.rest| < |t|
  {
    var negative := t != "" && t[0] == '-';
    match ReadMagnitude(if negative then t[1..] else t)
    case None => None
    case Some(m) =>
      match m.value
      case None => Some(Token(Float(t[..|t| - |m.rest|]), m.rest))
      case Some(n) =>
        var magnitude: int := n;
        Some(Token(Integer(if negative then -magnitude else magnitude), m.rest))
  }

  /** The words that are values. */
  function ReadWord(t: string): (r: Option<Token<Value>>)
    ensures r.Some? ==> |r.value.rest| < |t|
  {
    if "null" <= t then Some(Token(Null, t[4..]))
    else if "true" <= t then Some(Token(Bool(true), t[4..]))
    else if "false" <= t then Some(Token(Bool(false), t[5..]))
    else if "NaN" <= t then Some(Token(Float("NaN"), t[3..]))
    else if "Infinity" <= t then Some(Token(Float("Infinity"), t[8..]))
    else if "-Infinity" <= t then Some(Token(Float("-Infinity"), t[9..]))
    else None
  }

  // ---------- values ----------

  function ReadValue(t: string): (r: Option<Token<Value>>)
    ensures r.Some? ==> |r.value.rest| < |t|
    decreases |t|, 0
  {
    if t == "" then None
    else if t[0] == '"' then
      (match ReadString(t[1..])
       case None => None
       case Some(s) => Some(Token(JString(s.value), s.rest)))
    else if t[0] == '{' then ReadObject(t[1..])
    else if t[0] == '[' then ReadArray(t[1..])
    else if ReadWord(t).Some? then ReadWord(t)
    else ReadNumber(t)
  }

  function ReadObject(t: string): (r: Option<Token<Value>>)
    ensures r.Some? ==> |r.value.rest| < |t|
    decreases |t|, 3
  {
    var u := SkipSpace(t);
    if u != "" && u[0] == '}' then Some(Token(Object([]), u[1..]))
    else
      match ReadMembers(u)
      case None => None
      case Some(ms) => Some(Token(Object(ms.value), ms.rest))
  }

  /** Members up to the closing brace. */
  function ReadMembers(t: string): (r: Option<Token<seq<Member>>>)
    ensures r.Some? ==> |r.value.rest| < |t|
    decreases |t|, 2
  {
    match ReadMember(t)
    case None => None
    case Some(m) =>
      var u := SkipSpace(m.rest);
      if u == "" then None
      else if u[0] == '}' then Some(Token([m.value], u[1..]))
      else if u[0] == ',' then InFront(m.value, ReadMembers(SkipSpace(u[1..])))
      else None
  }

  function InFront(m: Member, r: Option<Token<seq<Member>>>): Option<Token<seq<Member>>> {
    if r.Some? then Some(Token([m] + r.value.value, r.value.rest)) else None
  }

  function ReadMember(t: string): (r: Option<Token<Member>>)
    ensures r.Some? ==> |r.value.rest| < |t|
    decreases |t|, 1
  {
    if t == "" || t[0] != '"' then None
    else
      match ReadString(t[1..])
      case None => None
      case Some(k) =>
        var u := SkipSpace(k.rest);
        if u == "" || u[0] != ':' then None
        else
          match ReadValue(SkipSpace(u[1..]))
          case None => None
          case Some(v) => Some(Token(Member(k.value, v.value), v.rest))
  }

  function ReadArray(t: string): (r: Option<Token<Value>>)
    ensures r.Some? ==> |r.value.rest| < |t|
    decreases |t|, 3
  {
    var u := SkipSpace(t);
    if u != "" && u[0] == ']' then Some(Token(Array([]), u[1..]))
    else
      match ReadItems(u)
      case None => None
      case Some(vs) => Some(Token(Array(vs.value), vs.rest))
  }

  function ReadItems(t: string): (r: Option<Token<seq<Value>>>)
    ensures r.Some? ==> |r.value.rest| < |t|
    decreases |t|, 2
  {
    match ReadValue(t)
    case None => None
    case Some(v) =>
      var u := SkipSpace(v.rest);
      if u == "" then None
      else if u[0] == ']' then Some(Token([v.value], u[1..]))
      else if u[0] == ',' then
        (match ReadItems(SkipSpace(u[1..]))
         case None => None
         case Some(vs) => Some(Token([v.value] + vs.value, vs.rest)))
      else None
  }

  /** json.loads: one value and nothing else but space; None for a JSONDecodeError. */
  function Loads(t: string): Option<Value> {
    match ReadValue(SkipSpace(t))
    case None => None
    case Some(v) => if SkipSpace(v.rest) == "" then Some(v.value) else None
  }

  /** dict.get: of repeated keys the last counts, and null is as good as absent. */
  function Get(ms: seq<Member>, key: string): Value {
    if ms == [] then Null
    else if ms[|ms| - 1].key == key then ms[|ms| - 1].value
    else Get(ms[..|ms| - 1], key)
  }

  // ---------- reading printed pieces ----------

  lemma {:induction false} AfterDigitsOf(d: string, rest: string)
    requires AllDigits(d) && (rest != "" ==> !IsDigit(rest[0]))
    ensures AfterDigits(d + rest) == rest
  {
    if d == "" {
      assert d + rest == rest;
    } else {
      assert (d + rest)[1..] == d[1..] + rest;
      AfterDigitsOf(d[1..], rest);
    }
  }

  /** Printed numbers have no leading zero. */
  lemma {:induction false} NoLeadingZero(n: nat)
    ensures Decimal(n)[0] == '0' ==> n == 0 && Decimal(n) == "0"
  {
    if n >= 10 {
      NoLeadingZero(n / 10);
      assert Decimal(n)[0] == Decimal(n / 10)[0];
    }
  }

  /** What follows a value in a printed line. */
  predicate Closes(rest: string) { rest != "" && (rest[0] == ',' || rest[0] == '}') }

  /** What can follow an integer without being read as part of it. */
  predicate NumberEnds(rest: string) {
    rest == "" || (!IsDigit(rest[0]) && rest[0] != '.' && rest[0] != 'e' && rest[0] != 'E')
  }

  lemma ClosedNumber(rest: string)
    requires NumberEnds(rest)
    ensures AfterExponent(AfterFraction(rest)) == rest
  {
  }

  lemma DigitsRead(d: string, rest: string)
    requires AllDigits(d) && d != "" && (d[0] == '0' ==> d == "0") && NumberEnds(rest)
    ensures ReadMagnitude(d + rest) == Some(Token(Some(DigitsValue(d)), rest))
  {
    ClosedNumber(rest);
    var t := d + rest;
    assert t[1..] == d[1..] + rest;
    if d[0] == '0' {
      assert d[1..] == "" && t[1..] == rest;
      assert d[..0] == "";
    } else {
      LeadingDigitsOf(d, rest);
      AfterDigitsOf(d[1..], rest);
      hide DigitsValue, LeadingDigits, AfterDigits, AfterFraction, AfterExponent, NumberEnds;
      assert ReadMagnitude(t).Some?;
    }
  }

  lemma MagnitudeReads(n: nat, rest: string)
    requires NumberEnds(rest)
    ensures ReadMagnitude(Decimal(n) + rest) == Some(Token(Some(n), rest))
  {
    hide Decimal, ReadMagnitude, DigitsValue, NumberEnds;
    NoLeadingZero(n);
    DecimalValue(n);
    DigitsRead(Decimal(n), rest);
  }

  /** ReadValue reads every printed integer back. */
  lemma IntegerReads(n: int, rest: string)
    requires NumberEnds(rest)
    ensures ReadValue(SignedDecimal(n) + rest) == Some(Token(Integer(n), rest))
  {
    hide Decimal, ReadMagnitude, ReadWord, NumberEnds;
    NumberIsNoWord(n, rest);
    MagnitudeReads(if n < 0 then -n else n, rest);
    var t := SignedDecimal(n) + rest;
    if n < 0 {
      assert t[1..] == Decimal(-n) + rest;
    } else {
      assert IsDigit(Decimal(n)[0]);
    }
  }

  lemma NumberIsNoWord(n: int, rest: string)
    ensures var t := SignedDecimal(n) + rest;
            t != "" && t[0] != '"' && t[0] != '{' && t[0] != '[' && ReadWord(t) == None
  {
    hide Decimal;
    var d := Decimal(if n < 0 then -n else n);
    assert IsDigit(d[0]);
    var t := SignedDecimal(n) + rest;
    assert "-Infinity"[1] == 'I';
    assert n < 0 ==> t[1] == d[0];
  }

  /** A text that can stand between quotes reads back as its value. */
  lemma StringReads(s: string, rest: string)
    requires Inside(s)
    ensures ReadValue("\"" + s + "\"" + rest) == Some(Token(JString(InsideValue(s)), rest))
  {
    hide ReadString;
    InsideReads(s, rest);
    assert ("\"" + s + "\"" + rest)[1..] == s + "\"" + rest;
  }
}
