/** What any JSON reader gets from the metadata the recorder writes. */
module MetadataJson {
  import opened CText
  import opened JsonText
  import opened Json
  import opened JsonKnown
  import opened Metadata

  function Texts(argv: seq<string>): (r: seq<Value>)
    ensures |r| == |argv| && forall i :: 0 <= i < |r| ==> r[i] == JString(argv[i])
  {
    seq(|argv|, i requires 0 <= i < |argv| => JString(argv[i]))
  }

  /** The members of the object, in order. */
  function Members(runId: string, target: string, argv: seq<string>): seq<Member> {
    [Member("schema_version", JString("adr.metadata.v1")), Member("run_id", JString(runId)),
     Member("mode", JString("record")), Member("target", JString(target)), Member("argv", Array(Texts(argv))),
     Member("arch", JString("x86_64")), Member("adr_version", JString("0.1.0"))]
  }

  /** Members one to a line. */
  function Indented(ms: seq<Member>): string {
    if ms == [] then ""
    else if |ms| == 1 then ShowMember(ms[0], "") + "\n"
    else ShowMember(ms[0], "") + ",\n  " + Indented(ms[1..])
  }

  lemma NoSpacing()
    ensures IsSpacing("") && IsSpacing("\n") && IsSpacing("\n  ")
  {
  }

  lemma {:induction false} IndentedSolid(ms: seq<Member>, rest: string)
    requires ms != []
    ensures var t := Indented(ms) + rest; Solid(t) && t[0] == '"'
  {
    hide ShowMember;
    MemberSolid(ms[0], "", "");
    assert ShowMember(ms[0], "") + "" == ShowMember(ms[0], "");
  }

  lemma {:induction false} EndsMember(m: Member, more: string)
    requires NoFloats(m.value) && NumberEnds(more)
    ensures ReadMember(ShowMember(m, "") + more) == Some(Token(m, more))
  {
    assert !m.value.Float?;
    hide ReadMember, ShowMember, ReadValue, NoFloats, Show;
    NoSpacing();
    ValueReads(m.value, "", more);
    MemberReads(m, "", more);
  }

  lemma {:induction false} JoinLast(a: string, rest: string)
    ensures (a + "\n") + "}" + rest == a + ("\n" + "}" + rest)
  {
  }

  lemma {:induction false} JoinNext(a: string, b: string, rest: string)
    ensures (a + ",\n  " + b) + "}" + rest == a + ("" + "," + ("\n  " + (b + "}" + rest)))
  {
  }

  lemma {:induction false} IndentedReads(ms: seq<Member>, rest: string)
    requires ms != [] && NoFloats(Object(ms))
    ensures ReadMembers(Indented(ms) + "}" + rest) == Some(Token(ms, rest))
  {
    var m := ms[0];
    assert NoFloats(m.value);
    NoSpacing();
    if |ms| == 1 {
      hide ReadMember, ReadMembers, ShowMember, IsSpacing, NoFloats;
      var more := "\n" + "}" + rest;
      EndsMember(m, more);
      LastMember(m, "", "\n", more, rest);
      assert ms == [m];
      JoinLast(ShowMember(m, ""), rest);
    } else {
      var others := ms[1..];
      assert NoFloats(Object(others));
      hide ReadMember, ReadMembers, ShowMember, IsSpacing, NoFloats, Solid;
      var next := Indented(others) + "}" + rest;
      var more := "" + "," + ("\n  " + next);
      EndsMember(m, more);
      IndentedSolid(others, "}" + rest);
      JoinTwo(Indented(others), "}", rest);
      IndentedReads(others, rest);
      OneMoreMember(m, "", "", "\n  ", more, next, others, rest);
      assert ms == [m] + others;
      JoinNext(ShowMember(m, ""), Indented(others), rest);
    }
  }

  // ---------- the text is that ----------

  lemma {:induction false} ItemsAppend(items: seq<Value>, v: Value)
    ensures ShowItems(items + [v], "") == ShowItems(items, "") + (if items == [] then "" else ",") + Show(v, "")
  {
    hide Show;
    if items == [] {
      assert items + [v] == [v];
    } else {
      assert (items + [v])[1..] == items[1..] + [v] && (items + [v])[0] == items[0];
      ItemsAppend(items[1..], v);
      if |items| > 1 {
        JoinAppend(Show(items[0], ""), ShowItems(items[1..], ""), Show(v, ""));
      } else {
        assert items[1..] == [];
      }
    }
  }

  lemma {:induction false} JoinAppend(a: string, b: string, c: string)
    ensures a + "" + "," + "" + (b + "," + c) == (a + "" + "," + "" + b) + "," + c
  {
  }

  lemma {:induction false} ArgumentsAreItems(argv: seq<string>)
    ensures Arguments(argv) == ShowItems(Texts(argv), "")
  {
    hide Escape;
    if argv != [] {
      var n := |argv| - 1;
      ArgumentsAreItems(argv[..n]);
      ItemsAppend(Texts(argv[..n]), JString(argv[n]));
      assert Texts(argv) == Texts(argv[..n]) + [JString(argv[n])];
    }
  }

  /** A member whose value is a text. */
  lemma {:induction false} TextMember(key: string, value: string)
    ensures ShowMember(Member(key, JString(value)), "") == Escape(key) + ":" + Escape(value)
  {
    hide Escape;
  }

  lemma {:induction false} PlainEscape(s: string)
    requires Plain(s)
    ensures Escape(s) == "\"" + s + "\""
  {
    PlainUnchanged(s);
  }

  lemma {:induction false} FixedKeys()
    ensures Escape("schema_version") == "\"schema_version\"" && Escape("run_id") == "\"run_id\""
    ensures Escape("mode") == "\"mode\"" && Escape("target") == "\"target\""
  {
    hide Escape;
    PlainEscape("schema_version");
    PlainEscape("run_id");
    PlainEscape("mode");
    PlainEscape("target");
  }

  lemma {:induction false} LastKeys()
    ensures Escape("argv") == "\"argv\"" && Escape("arch") == "\"arch\""
    ensures Escape("adr_version") == "\"adr_version\""
  {
    hide Escape;
    PlainEscape("argv");
    PlainEscape("arch");
    PlainEscape("adr_version");
  }

  lemma {:induction false} FixedValues()
    ensures Escape("adr.metadata.v1") == "\"adr.metadata.v1\"" && Escape("record") == "\"record\""
    ensures Escape("x86_64") == "\"x86_64\"" && Escape("0.1.0") == "\"0.1.0\""
  {
    hide Escape;
    PlainEscape("adr.metadata.v1");
    PlainEscape("record");
    PlainEscape("x86_64");
    PlainEscape("0.1.0");
  }

  /** A comma and the start of the next line. */
  lemma {:induction false} LineBreak()
    ensures "," + "\n  " == ",\n  "
  {
  }

  lemma {:induction false} SchemaIs()
    ensures SCHEMA == "{" + "\n  " + ("\"schema_version\"" + ":")
  {
  }

  lemma {:induction false} VersionIs()
    ensures VERSION == "\"adr.metadata.v1\"" + ","
  {
  }

  lemma {:induction false} RunIdIs()
    ensures RUN_ID == "\n  " + ("\"run_id\"" + ":")
  {
  }

  lemma {:induction false} JoinOpening(b: string, n: string, s: string, c: string, v: string, r: string)
    ensures b + n + (s + c) + (v + ",") + (n + r) == b + n + (s + c + v) + ("," + n) + r
  {
  }

  lemma {:induction false} OpeningIs()
    ensures OPENING == "{" + "\n  " + ("\"schema_version\"" + ":" + "\"adr.metadata.v1\"") + ",\n  "
                       + ("\"run_id\"" + ":")
  {
    SchemaIs();
    VersionIs();
    RunIdIs();
    LineBreak();
    JoinOpening("{", "\n  ", "\"schema_version\"", ":", "\"adr.metadata.v1\"", "\"run_id\"" + ":");
  }

  lemma {:induction false} ModeIs()
    ensures MODE == ",\n  " + ("\"mode\"" + ":" + "\"record\"") + ",\n  "
    ensures TARGET == "\"target\"" + ":"
  {
  }

  lemma {:induction false} ArgvIs()
    ensures ARGV == ",\n  " + ("\"argv\"" + ":") + "["
  {
  }

  lemma {:induction false} ArchIs()
    ensures ARCH == "]" + ",\n  " + ("\"arch\"" + ":") + ("\"x86_64\"" + ",")
  {
  }

  lemma {:induction false} AdrVersionIs()
    ensures ADR_VERSION == "\n  " + ("\"adr_version\"" + ":") + ("\"0.1.0\"" + "\n") + ("}" + "\n")
  {
  }

  lemma {:induction false} JoinArch(z: string, c: string, v: string, n: string, k: string, w: string, e: string,
                                    f: string)
    ensures ("]" + n + (z + c) + (v + ",")) + ("\n  " + (k + c) + (w + e) + f)
         == "]" + n + (z + c + v) + ("," + "\n  ") + (k + c + w) + e + f
  {
  }

  lemma {:induction false} ClosingIs()
    ensures CLOSING == "]" + ",\n  " + ("\"arch\"" + ":" + "\"x86_64\"") + ",\n  "
                       + ("\"adr_version\"" + ":" + "\"0.1.0\"") + "\n" + ("}" + "\n")
  {
    ArchIs();
    AdrVersionIs();
    LineBreak();
    JoinArch("\"arch\"", ":", "\"x86_64\"", ",\n  ", "\"adr_version\"", "\"0.1.0\"", "\n", "}" + "\n");
  }

  /** Seven members on lines of their own. */
  lemma {:induction false} SevenLines(ms: seq<Member>)
    requires |ms| == 7
    ensures Indented(ms) ==
            ShowMember(ms[0], "") + ",\n  " + (ShowMember(ms[1], "") + ",\n  " + (ShowMember(ms[2], "") + ",\n  "
            + (ShowMember(ms[3], "") + ",\n  " + (ShowMember(ms[4], "") + ",\n  " + (ShowMember(ms[5], "") + ",\n  "
            + (ShowMember(ms[6], "") + "\n"))))))
  {
    hide ShowMember;
    assert ms[1..][1..] == ms[2..] && ms[2..][1..] == ms[3..] && ms[3..][1..] == ms[4..];
    assert ms[4..][1..] == ms[5..] && ms[5..][1..] == ms[6..];
    assert Indented(ms[6..]) == ShowMember(ms[6], "") + "\n";
    assert Indented(ms[5..]) == ShowMember(ms[5], "") + ",\n  " + Indented(ms[6..]);
    assert Indented(ms[4..]) == ShowMember(ms[4], "") + ",\n  " + Indented(ms[5..]);
    assert Indented(ms[3..]) == ShowMember(ms[3], "") + ",\n  " + Indented(ms[4..]);
    assert Indented(ms[2..]) == ShowMember(ms[2], "") + ",\n  " + Indented(ms[3..]);
    assert Indented(ms[1..]) == ShowMember(ms[1], "") + ",\n  " + Indented(ms[2..]);
  }

  lemma {:induction false} JoinText(n: string, a: string, r: string, m: string, t: string, v: string, z: string,
                                    y: string, e: string)
    ensures ("{" + "\n  " + a + n + r) + (n + m + n) + t + (n + v) + ("]" + n + z + n + y + "\n" + e)
         == "{" + ("\n  " + ((a + n + (r + n + (m + n + (t + n + ((v + "]") + n + (z + n + (y + "\n"))))))) + e))
  {
  }

  lemma {:induction false} TextIsIndented(runId: string, target: string, argv: seq<string>)
    ensures WrittenText(runId, target, argv)
         == "{" + ("\n  " + (Indented(Members(runId, target, argv)) + ("}" + "\n")))
  {
    hide Escape, Arguments, Indented, ShowItems;
    var ms := Members(runId, target, argv);
    FixedKeys();
    LastKeys();
    FixedValues();
    TextMember("schema_version", "adr.metadata.v1");
    TextMember("run_id", runId);
    TextMember("mode", "record");
    TextMember("target", target);
    TextMember("arch", "x86_64");
    TextMember("adr_version", "0.1.0");
    ArgvMember(argv);
    SevenLines(ms);
    OpeningIs();
    ModeIs();
    ArgvIs();
    ClosingIs();
    hide ShowMember;
    JoinPieces(OPENING, Escape(runId), MODE, "\"target\"" + ":", Escape(target), ",\n  " + ("\"argv\"" + ":") + "[",
               Arguments(argv), CLOSING);
    JoinOne("{" + "\n  " + ShowMember(ms[0], "") + ",\n  ", "\"run_id\"" + ":", Escape(runId));
    JoinOne(",\n  ", ("\"argv\"" + ":") + "[", Arguments(argv));
    JoinText(",\n  ", ShowMember(ms[0], ""), ShowMember(ms[1], ""), ShowMember(ms[2], ""), ShowMember(ms[3], ""),
             ("\"argv\"" + ":") + "[" + Arguments(argv), ShowMember(ms[5], ""), ShowMember(ms[6], ""), "}" + "\n");
  }

  lemma {:induction false} JoinOne(a: string, b: string, c: string)
    ensures (a + b) + c == a + (b + c)
  {
  }

  lemma {:induction false} JoinPieces(o: string, r: string, m: string, t: string, e: string, v: string, args: string,
                                      c: string)
    ensures (o + r + m + t) + e + (v + args + c) == (o + r) + m + (t + e) + (v + args) + c
  {
  }

  lemma {:induction false} ArgvMember(argv: seq<string>)
    ensures ShowMember(Member("argv", Array(Texts(argv))), "") == ("\"argv\"" + ":") + "[" + Arguments(argv) + "]"
  {
    hide Escape, ShowItems, Arguments;
    LastKeys();
    ArgumentsAreItems(argv);
    JoinArray("\"argv\"", Arguments(argv));
  }

  lemma {:induction false} JoinArray(k: string, v: string)
    ensures k + "" + ":" + "" + ("[" + "" + v + "]") == (k + ":") + "[" + v + "]"
  {
  }

  lemma {:induction false} ObjectFrom(t: string, body: string, ms: seq<Member>, rest: string)
    requires t != "" && t[0] == '{' && SkipSpace(t[1..]) == body && Solid(body) && body[0] != '}'
    requires ReadMembers(body) == Some(Token(ms, rest))
    ensures ReadValue(t) == Some(Token(Object(ms), rest))
  {
    hide ReadMembers, SkipSpace;
  }

  lemma {:induction false} IndentedLoads(ms: seq<Member>)
    requires ms != [] && NoFloats(Object(ms))
    ensures Loads("{" + ("\n  " + (Indented(ms) + ("}" + "\n")))) == Some(Object(ms))
  {
    hide ReadMembers, ReadValue, Indented, NoFloats, SkipSpace, IsSpacing;
    IndentedReads(ms, "\n");
    IndentedSolid(ms, "}" + "\n");
    NoSpacing();
    var body := Indented(ms) + ("}" + "\n");
    JoinOne(Indented(ms), "}", "\n");
    SpacingSkipped("\n  ", body);
    SpacingSkipped("\n", "");
    assert "\n" + "" == "\n";
    var t := "{" + ("\n  " + body);
    assert t[0] == '{' && t[1..] == "\n  " + body;
    NothingSkipped(t);
    ObjectFrom(t, body, ms, "\n");
  }

  /** A JSON reader gets exactly the schema, the run, the mode, the target, the arguments in order, and the two
      fixed members, whatever bytes the names are made of. */
  lemma {:induction false} MetadataDecodes(runId: string, target: string, argv: seq<string>)
    ensures Loads(WrittenText(runId, target, argv)) ==
            Some(Object([Member("schema_version", JString("adr.metadata.v1")), Member("run_id", JString(runId)),
                         Member("mode", JString("record")), Member("target", JString(target)),
                         Member("argv", Array(Texts(argv))), Member("arch", JString("x86_64")),
                         Member("adr_version", JString("0.1.0"))]))
  {
    hide WrittenText, Loads, Indented;
    TextIsIndented(runId, target, argv);
    FloatFree(runId, target, argv);
    IndentedLoads(Members(runId, target, argv));
  }

  lemma {:induction false} FloatFree(runId: string, target: string, argv: seq<string>)
    ensures NoFloats(Object(Members(runId, target, argv)))
  {
  }
}
