/** The C library under the loader pinned from outside: strtol's grammar and range, getline's lines, and the
    sizes of the growing array. */
module LoaderKnown {
  import opened CText
  import opened TraceEvent
  import opened ReplayQueue

  // ---------- strtol ----------

  /** isspace in the C locale. */
  predicate IsBlank(s: string) { forall i :: 0 <= i < |s| ==> s[i] as nat in {9, 10, 11, 12, 13, 32} }

  datatype Sign = Unsigned | Plus | Minus

  function SignText(sign: Sign): string {
    match sign
    case Unsigned => ""
    case Plus => "+"
    case Minus => "-"
  }

  /** Nothing a number could begin with. */
  predicate NoNumber(s: string) {
    s == "" || (!IsDigit(s[0]) && s[0] != '+' && s[0] != '-' && !IsSpace(s[0]))
  }

  lemma {:induction false} BlanksSkipped(blank: string, rest: string)
    requires IsBlank(blank) && (rest == "" || !IsSpace(rest[0]))
    ensures SkipSpaces(blank + rest) == rest
  {
    if blank == "" {
      assert blank + rest == rest;
    } else {
      assert (blank + rest)[1..] == blank[1..] + rest;
      BlanksSkipped(blank[1..], rest);
    }
  }

  lemma BlankIgnored(blank: string, t: string)
    requires IsBlank(blank) && (t == "" || !IsSpace(t[0]))
    ensures ParseLong(blank + t) == ParseLong(t)
  {
    hide DigitsValue, LeadingDigits, SkipSpaces, IsBlank;
    BlanksSkipped(blank, t);
    NoBlanks(t);
  }

  lemma NoBlanks(t: string)
    requires t == "" || !IsSpace(t[0])
    ensures SkipSpaces(t) == t
  {
  }

  lemma SignedReads(sign: Sign, digits: string, rest: string)
    requires AllDigits(digits) && (rest == "" || !IsDigit(rest[0]))
    requires digits == "" && sign.Unsigned? ==> NoNumber(rest)
    ensures var n, t := DigitsValue(digits), SignText(sign) + (digits + rest);
            && (t == "" || !IsSpace(t[0]))
            && ParseLong(t) ==
               if digits != "" && LONG_MIN <= Signed(sign.Minus?, n) <= LONG_MAX then Some(Signed(sign.Minus?, n))
               else None
  {
    hide DigitsValue, LeadingDigits, SkipSpaces;
    var d := digits + rest;
    LeadingDigitsOf(digits, rest);
    assert digits != "" ==> d[0] == digits[0] && IsDigit(digits[0]);
    assert digits == "" ==> d == rest;
    var t := SignText(sign) + d;
    match sign {
      case Unsigned =>
        assert t == d;
      case _ =>
        assert t[1..] == d;
    }
    NoBlanks(t);
  }

  /** Spaces, one sign, decimal digits: the number is theirs if a long can hold it, and otherwise, or without a
      digit, there is none.  What follows the digits does not matter. */
  lemma NumberReads(blank: string, sign: Sign, digits: string, rest: string)
    requires IsBlank(blank) && AllDigits(digits) && (rest == "" || !IsDigit(rest[0]))
    requires digits == "" && sign.Unsigned? ==> NoNumber(rest)
    ensures var n: int := DigitsValue(digits);
            var v := if sign.Minus? then -n else n;
            ParseLong(blank + SignText(sign) + digits + rest) ==
            if digits != "" && -0x8000_0000_0000_0000 <= v <= 0x7fff_ffff_ffff_ffff then Some(v) else None
  {
    hide DigitsValue, ParseLong, IsBlank, IsDigit, NoNumber, SignText;
    SignedReads(sign, digits, rest);
    BlankIgnored(blank, SignText(sign) + (digits + rest));
    JoinNumber(blank, SignText(sign), digits, rest);
  }

  lemma JoinNumber(a: string, b: string, c: string, d: string)
    ensures a + (b + (c + d)) == a + b + c + d
  {
  }

  /** Every digit counts, with the weight of its place. */
  lemma {:induction false} DigitsWeigh(a: string, b: string)
    requires AllDigits(a) && AllDigits(b)
    ensures AllDigits(a + b) && DigitsValue(a + b) == DigitsValue(a) * Pow10(|b|) + DigitsValue(b)
  {
    if b == "" {
      assert a + b == a;
    } else {
      var n := |b| - 1;
      assert (a + b)[..|a + b| - 1] == a + b[..n] && (a + b)[|a + b| - 1] == b[n];
      DigitsWeigh(a, b[..n]);
      Weights(DigitsValue(a), Pow10(n), DigitsValue(b[..n]));
    }
  }

  lemma Weights(a: nat, p: nat, b: nat)
    ensures (a * p + b) * 10 == a * (10 * p) + b * 10
  {
  }

  // ---------- getline ----------

  /** A line goes up to and includes the first newline; without one it is all there is. */
  lemma LinesEndAtNewlines(line: string, rest: string)
    requires Lacks(line, '\n')
    ensures FirstLine(line + "\n" + rest) == (line + "\n", rest)
    ensures FirstLine(line) == (line, "")
  {
    hide FirstLine;
    assert (line + "\n")[..|line + "\n"| - 1] == line;
    FirstLineOf(line + "\n", rest);
    LastLine(line);
  }

  lemma {:induction false} LastLine(line: string)
    requires Lacks(line, '\n')
    ensures FirstLine(line) == (line, "")
  {
    if line != "" {
      assert line[0] in line && line == [line[0]] + line[1..];
      LastLine(line[1..]);
    }
  }

  // ---------- capacities ----------

  function PowerOfTwo(k: nat): nat { if k == 0 then 1 else 2 * PowerOfTwo(k - 1) }

  /** The array grows to 64, then 128, and so on. */
  lemma {:induction false} CapacityIs(k: nat)
    ensures Doubled(k) == 64 * PowerOfTwo(k)
  {
    if k > 0 {
      CapacityIs(k - 1);
    }
  }
}
