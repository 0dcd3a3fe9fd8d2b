/** The C string functions the trace code is made of: bounded printing, decimal numbers,
    strstr and strtol.  A char stands for one byte; C strings hold no NUL. */
module CText {
  datatype Option<T> = None | Some(value: T)

  function OrElse<T>(o: Option<T>, default: T): T {
    match o
    case None => default
    case Some(v) => v
  }

  const LONG_MIN := -0x8000_0000_0000_0000
  const LONG_MAX := 0x7fff_ffff_ffff_ffff
  const ULONG_MAX := 0xffff_ffff_ffff_ffff

  /** What snprintf leaves in a buffer of `size` chars. */
  function Snprintf(size: nat, text: string): (r: string)
    requires size > 0
    ensures |r| < size
  {
    if |text| < size then text else text[..size - 1]
  }

  predicate Lacks(s: string, c: char) { c !in s }

  // ---------- decimal numbers ----------

  predicate IsDigit(c: char) { '0' <= c <= '9' }

  predicate AllDigits(s: string) { forall i :: 0 <= i < |s| ==> IsDigit(s[i]) }

  /** %lu */
  function Decimal(n: nat): (s: string)
    ensures s != "" && AllDigits(s)
  {
    if n < 10 then ['0' + n as char] else Decimal(n / 10) + ['0' + (n % 10) as char]
  }

  /** %ld */
  function SignedDecimal(n: int): string {
    if n < 0 then "-" + Decimal(-n) else Decimal(n)
  }

  function DigitsValue(s: string): nat
    requires AllDigits(s)
  {
    if s == "" then 0 else DigitsValue(s[..|s| - 1]) * 10 + (s[|s| - 1] as nat - '0' as nat)
  }

  lemma {:induction false} DecimalValue(n: nat)
    ensures DigitsValue(Decimal(n)) == n
  {
    if n >= 10 {
      DecimalValue(n / 10);
      var s := Decimal(n);
      assert s[..|s| - 1] == Decimal(n / 10);
    } else {
      var s := Decimal(n);
      assert s[..|s| - 1] == "";
    }
  }

  function Pow10(k: nat): (r: nat)
    ensures r > 0
  {
    if k == 0 then 1 else 10 * Pow10(k - 1)
  }

  /** A number below 10^k prints in at most k digits. */
  lemma {:induction false} DecimalWidth(n: nat, k: nat)
    requires k > 0 && n < Pow10(k)
    ensures |Decimal(n)| <= k
  {
    if n >= 10 {
      DecimalWidth(n / 10, k - 1);
    }
  }

  lemma Pow10Of20()
    ensures Pow10(20) == 1_0000000000_0000000000 && Pow10(10) == 1_0000000000
  {
    assert Pow10(5) == 1_00000;
    assert Pow10(10) == 1_00000 * Pow10(5);
    assert Pow10(15) == 1_00000 * Pow10(10);
    assert Pow10(20) == 1_00000 * Pow10(15);
  }

  /** Every 64-bit number, signed or not, prints in at most 20 chars; a 32-bit one in at most 11. */
  lemma PrintedWidth(n: int)
    ensures LONG_MIN <= n <= ULONG_MAX ==> |SignedDecimal(n)| <= 20
    ensures -0x8000_0000 <= n < 0x8000_0000 ==> |SignedDecimal(n)| <= 11
  {
    Pow10Of20();
    if 0 <= n <= ULONG_MAX {
      DecimalWidth(n, 20);
    } else if LONG_MIN <= n < 0 {
      assert Pow10(20) == 10 * Pow10(19);
      DecimalWidth(-n, 19);
    }
    if 0 <= n < 0x8000_0000 {
      DecimalWidth(n, 10);
    } else if -0x8000_0000 <= n < 0 {
      DecimalWidth(-n, 10);
    }
  }

  lemma SignedDecimalLacks(n: int, c: char)
    requires c != '-' && !IsDigit(c)
    ensures Lacks(SignedDecimal(n), c)
  {
  }

  // ---------- strtol, as parse_long_field calls it ----------

  predicate IsSpace(c: char) { c == ' ' || '\t' <= c <= '\r' }

  function SkipSpaces(s: string): string {
    if s != "" && IsSpace(s[0]) then SkipSpaces(s[1..]) else s
  }

  function LeadingDigits(s: string): (r: string)
    ensures AllDigits(r)
  {
    if s != "" && IsDigit(s[0]) then [s[0]] + LeadingDigits(s[1..]) else ""
  }

  /** The number at the start of s, unless there is none or it does not fit in a long. */
  function ParseLong(s: string): Option<int> {
    var t := SkipSpaces(s);
    var negative := t != "" && t[0] == '-';
    var digits := LeadingDigits(if t != "" && (t[0] == '-' || t[0] == '+') then t[1..] else t);
    if digits == "" then None else
      var magnitude: int := DigitsValue(digits);
      var v := if negative then -magnitude else magnitude;
      if LONG_MIN <= v <= LONG_MAX then Some(v) else None
  }

  lemma {:induction false} LeadingDigitsOf(d: string, rest: string)
    requires AllDigits(d) && (rest != "" ==> !IsDigit(rest[0]))
    ensures LeadingDigits(d + rest) == d
  {
    if d == "" {
      assert d + rest == rest;
    } else {
      assert (d + rest)[1..] == d[1..] + rest;
      LeadingDigitsOf(d[1..], rest);
    }
  }

  function Signed(negative: bool, n: int): int { if negative then -n else n }

  lemma ParseDigits(d: string, rest: string, negative: bool)
    requires d != "" && AllDigits(d) && LeadingDigits(d + rest) == d
    requires LONG_MIN <= Signed(negative, DigitsValue(d)) <= LONG_MAX
    ensures ParseLong((if negative then "-" + d else d) + rest) == Some(Signed(negative, DigitsValue(d)))
  {
    hide DigitsValue, LeadingDigits;
    var s := (if negative then "-" + d else d) + rest;
    assert s[0] == if negative then '-' else d[0];
    assert SkipSpaces(s) == s;
    if negative {
      assert s[1..] == d + rest;
    }
  }

  /** strtol inverts the decimal printing of every long. */
  lemma ParsePrinted(n: int, rest: string)
    requires LONG_MIN <= n <= LONG_MAX && (rest != "" ==> !IsDigit(rest[0]))
    ensures ParseLong(SignedDecimal(n) + rest) == Some(n)
  {
    hide Decimal, DigitsValue, LeadingDigits, ParseLong;
    var d := Decimal(if n < 0 then -n else n);
    DecimalValue(if n < 0 then -n else n);
    LeadingDigitsOf(d, rest);
    ParseDigits(d, rest, n < 0);
  }

  // ---------- strstr and strchr ----------

  /** find_after: what follows the first occurrence of needle. */
  function FindAfter(s: string, needle: string): Option<string> {
    if needle <= s then Some(s[|needle|..])
    else if s == "" then None
    else FindAfter(s[1..], needle)
  }

  /** What precedes the first c, if there is one. */
  function Before(s: string, c: char): Option<string> {
    if s == "" then None
    else if s[0] == c then Some("")
    else match Before(s[1..], c)
      case None => None
      case Some(t) => Some([s[0]] + t)
  }

  lemma {:induction false} BeforeFirst(t: string, c: char, rest: string)
    requires Lacks(t, c)
    ensures Before(t + [c] + rest, c) == Some(t)
  {
    var s := t + [c] + rest;
    if t != "" {
      assert s[1..] == t[1..] + [c] + rest;
      BeforeFirst(t[1..], c, rest);
      assert s[0] == t[0] && t[0] in t;
      assert t == [t[0]] + t[1..];
    }
  }

  /** A text without the needle's first char is passed over. */
  lemma {:induction false} FindSkips(p: string, s: string, needle: string)
    requires needle != "" && Lacks(p, needle[0])
    ensures FindAfter(p + s, needle) == FindAfter(s, needle)
  {
    if p == "" {
      assert p + s == s;
    } else {
      assert (p + s)[0] == p[0] && p[0] in p;
      assert (p + s)[1..] == p[1..] + s;
      FindSkips(p[1..], s, needle);
    }
  }

  lemma {:induction false} FoundNowhere(s: string, needle: string)
    ensures FindAfter(s, needle) == None <==> forall i :: 0 <= i <= |s| ==> !(needle <= s[i..])
  {
    assert s[0..] == s;
    if s == "" {
      assert FindAfter(s, needle) == None <==> !(needle <= s[0..]);
    } else if !(needle <= s) {
      FoundNowhere(s[1..], needle);
      assert forall i :: 1 <= i <= |s| ==> s[i..] == s[1..][i - 1..];
      assert forall i :: 0 <= i <= |s[1..]| ==> s[1..][i..] == s[i + 1..];
    }
  }

  lemma {:induction false} FindPast(p: string, s: string, needle: string)
    requires forall i :: 0 <= i < |p| ==> !(needle <= (p + s)[i..])
    ensures FindAfter(p + s, needle) == FindAfter(s, needle)
  {
    if p == "" {
      assert p + s == s;
    } else {
      assert (p + s)[0..] == p + s && (p + s)[1..] == p[1..] + s;
      assert forall i :: 0 <= i < |p[1..]| ==> (p[1..] + s)[i..] == (p + s)[i + 1..];
      FindPast(p[1..], s, needle);
    }
  }

  /** A text that does not hold the needle is passed over when the next char cannot be part of one. */
  lemma FindAcross(p: string, s: string, needle: string)
    requires FindAfter(p, needle) == None && (s != "" ==> Lacks(needle, s[0]))
    ensures FindAfter(p + s, needle) == FindAfter(s, needle)
  {
    FoundNowhere(p, needle);
    hide FindAfter;
    forall i | 0 <= i < |p|
      ensures !(needle <= (p + s)[i..])
    {
      if |needle| <= |p| - i {
        assert (p + s)[i..][..|needle|] == p[i..][..|needle|];
      } else if i + |needle| <= |p + s| {
        assert (p + s)[i..][|p| - i] == s[0] != needle[|p| - i];
      }
    }
    FindPast(p, s, needle);
  }

  /** What is there is found. */
  lemma {:induction false} FindPresent(p: string, needle: string, s: string)
    ensures FindAfter(p + needle + s, needle).Some?
  {
    var text := p + needle + s;
    if p == "" {
      assert text == needle + s;
    } else {
      assert text[1..] == p[1..] + needle + s;
      FindPresent(p[1..], needle, s);
    }
  }

  lemma PrefixStays(needle: string, a: string, b: string)
    ensures needle <= a ==> needle <= a + b
  {
  }

  /** A part of a text without the needle is without it. */
  lemma FindInParts(p: string, s: string, needle: string)
    requires FindAfter(p + s, needle) == None
    ensures FindAfter(p, needle) == None && FindAfter(s, needle) == None
  {
    FoundNowhere(p + s, needle);
    FoundNowhere(p, needle);
    FoundNowhere(s, needle);
    hide FindAfter;
    forall i | 0 <= i <= |p|
      ensures !(needle <= p[i..])
    {
      assert (p + s)[i..] == p[i..] + s;
      PrefixStays(needle, p[i..], s);
    }
    forall i | 0 <= i <= |s|
      ensures !(needle <= s[i..])
    {
      assert (p + s)[|p| + i..] == s[i..];
    }
  }

  /** Comparing `a"x` with the start of `b"y`, a and b free of quotes, compares the parts. */
  lemma {:induction false} QuotedPrefix(a: string, x: string, b: string, y: string)
    requires Lacks(a, '"') && Lacks(b, '"')
    ensures a + "\"" + x <= b + "\"" + y <==> a == b && x <= y
  {
    var l, r := a + "\"" + x, b + "\"" + y;
    if a == "" || b == "" {
      if a == b {
        assert l[1..] == x && r[1..] == y;
        assert x <= y ==> l <= r;
        assert l <= r ==> x == l[1..] <= r[1..];
      } else {
        assert l[0] != r[0];
      }
    } else {
      QuotedPrefix(a[1..], x, b[1..], y);
      assert l == [a[0]] + (a[1..] + "\"" + x) && r == [b[0]] + (b[1..] + "\"" + y);
      assert l[1..] == a[1..] + "\"" + x && r[1..] == b[1..] + "\"" + y;
      assert l <= r <==> a[0] == b[0] && l[1..] <= r[1..];
      assert a == [a[0]] + a[1..] && b == [b[0]] + b[1..];
    }
  }
}
