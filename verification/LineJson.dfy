/** A trace line as the JSON object it is meant to be, and what json.loads makes of its text. */
module LineJson {
  import opened CText
  import opened EventText
  import opened JsonText
  import opened Json

  /** `"key":"raw"`, printed without escaping raw, or `"key":n`. */
  datatype Leaf = Text(key: Key, raw: string) | Int(key: Key, n: int) {
    function Print(): string {
      "\"" + KeyText(key) + "\":" + if Text? then "\"" + raw + "\"" else SignedDecimal(n)
    }

    predicate Legible() { Text? ==> Inside(raw) }

    function Meaning(): Member
      requires Legible()
    {
      Member(KeyText(key), if Text? then JString(InsideValue(raw)) else Integer(n))
    }
  }

  function PrintLeaves(ls: seq<Leaf>): string {
    if ls == [] then "" else ls[0].Print() + if |ls| == 1 then "" else "," + PrintLeaves(ls[1..])
  }

  predicate AllLegible(ls: seq<Leaf>) { forall i :: 0 <= i < |ls| ==> ls[i].Legible() }

  function Meanings(ls: seq<Leaf>): (r: seq<Member>)
    requires AllLegible(ls)
    ensures |r| == |ls|
  {
    if ls == [] then [] else [ls[0].Meaning()] + Meanings(ls[1..])
  }

  /** A member of the line: a leaf, or an object of leaves. */
  datatype Item = One(leaf: Leaf) | Group(key: Key, leaves: seq<Leaf>) {
    function Print(): string {
      if One? then leaf.Print() else "\"" + KeyText(key) + "\":{" + PrintLeaves(leaves) + "}"
    }

    predicate Legible() { if One? then leaf.Legible() else leaves != [] && AllLegible(leaves) }

    function Meaning(): Member
      requires Legible()
    {
      if One? then leaf.Meaning() else Member(KeyText(key), Object(Meanings(leaves)))
    }

    function Name(): Key { if One? then leaf.key else key }
  }

  function PrintItems(xs: seq<Item>): string {
    if xs == [] then "" else xs[0].Print() + if |xs| == 1 then "" else "," + PrintItems(xs[1..])
  }

  predicate ItemsLegible(xs: seq<Item>) { forall i :: 0 <= i < |xs| ==> xs[i].Legible() }

  function ItemMeanings(xs: seq<Item>): (r: seq<Member>)
    requires ItemsLegible(xs)
    ensures |r| == |xs|
  {
    if xs == [] then [] else [xs[0].Meaning()] + ItemMeanings(xs[1..])
  }

  // ---------- reading a leaf ----------

  lemma WordPlain(s: string)
    requires IsWord(s)
    ensures Plain(s)
  {
  }

  lemma KeyReads(k: Key, rest: string)
    ensures ReadString(KeyText(k) + "\"" + rest) == Some(Token(KeyText(k), rest))
  {
    hide KeyText, ReadString;
    KeyTextWord(k);
    WordPlain(KeyText(k));
    PlainInside(KeyText(k));
    InsideReads(KeyText(k), rest);
  }

  /** A key, its colon, and whatever value comes next. */
  lemma MemberReads(k: Key, v: string)
    requires v != "" && !IsJsonSpace(v[0])
    ensures ReadMember("\"" + KeyText(k) + "\":" + v) ==
            match ReadValue(v) case None => None case Some(x) => Some(Token(Member(KeyText(k), x.value), x.rest))
  {
    hide KeyText, ReadString, ReadValue;
    var t := "\"" + KeyText(k) + "\":" + v;
    assert t[1..] == KeyText(k) + "\"" + (":" + v);
    KeyReads(k, ":" + v);
    assert (":" + v)[1..] == v;
    assert SkipSpace(":" + v) == ":" + v && SkipSpace(v) == v;
  }

  lemma LeafReads(l: Leaf, rest: string)
    requires l.Legible() && Closes(rest)
    ensures ReadMember(l.Print() + rest) == Some(Token(l.Meaning(), rest))
  {
    hide KeyText, ReadMember, ReadValue, SignedDecimal, Inside, InsideValue;
    if l.Text? {
      var v := "\"" + l.raw + "\"" + rest;
      StringReads(l.raw, rest);
      MemberReads(l.key, v);
      assert l.Print() + rest == "\"" + KeyText(l.key) + "\":" + v;
    } else {
      var v := SignedDecimal(l.n) + rest;
      IntegerReads(l.n, rest);
      NumberStart(l.n);
      MemberReads(l.key, v);
      assert l.Print() + rest == "\"" + KeyText(l.key) + "\":" + v;
    }
  }

  lemma NumberStart(n: int)
    ensures SignedDecimal(n) != "" && !IsJsonSpace(SignedDecimal(n)[0])
  {
    hide Decimal;
    assert IsDigit(Decimal(if n < 0 then -n else n)[0]);
  }

  // ---------- reading members in a row ----------

  /** A member and a comma: the rest decides. */
  lemma MemberThen(t: string, m: Member, next: string)
    requires ReadMember(t) == Some(Token(m, "," + next)) && (next != "" ==> !IsJsonSpace(next[0]))
    ensures ReadMembers(t) == InFront(m, ReadMembers(next))
  {
    hide ReadMember;
    assert ("," + next)[1..] == next;
    assert SkipSpace("," + next) == "," + next && SkipSpace(next) == next;
  }

  lemma MemberEnds(t: string, m: Member, rest: string)
    requires ReadMember(t) == Some(Token(m, "}" + rest))
    ensures ReadMembers(t) == Some(Token([m], rest))
  {
    hide ReadMember;
    assert ("}" + rest)[1..] == rest;
    assert SkipSpace("}" + rest) == "}" + rest;
  }

  lemma {:induction false} LeavesRead(ls: seq<Leaf>, rest: string)
    requires ls != [] && AllLegible(ls)
    ensures ReadMembers(PrintLeaves(ls) + "}" + rest) == Some(Token(Meanings(ls), rest))
  {
    hide ReadMembers, ReadMember, Leaf.Print, Leaf.Legible, Leaf.Meaning;
    assert ls[0].Legible();
    var t := PrintLeaves(ls) + "}" + rest;
    if |ls| == 1 {
      assert t == ls[0].Print() + ("}" + rest);
      LeafReads(ls[0], "}" + rest);
      MemberEnds(t, ls[0].Meaning(), rest);
      assert ls[1..] == [] && Meanings(ls) == [ls[0].Meaning()];
    } else {
      var next := PrintLeaves(ls[1..]) + "}" + rest;
      assert t == ls[0].Print() + ("," + next);
      LeafReads(ls[0], "," + next);
      LeavesStart(ls[1..]);
      MemberThen(t, ls[0].Meaning(), next);
      LeavesRead(ls[1..], rest);
    }
  }

  lemma LeavesStart(ls: seq<Leaf>)
    requires ls != []
    ensures PrintLeaves(ls) != "" && PrintLeaves(ls)[0] == '"'
  {
    hide KeyText, SignedDecimal;
  }

  lemma ItemsStart(xs: seq<Item>)
    requires xs != []
    ensures PrintItems(xs) != "" && PrintItems(xs)[0] == '"'
  {
    hide KeyText, SignedDecimal, PrintLeaves;
  }

  lemma ItemReads(x: Item, rest: string)
    requires x.Legible() && Closes(rest)
    ensures ReadMember(x.Print() + rest) == Some(Token(x.Meaning(), rest))
  {
    hide KeyText, ReadMember, ReadMembers, PrintLeaves, Leaf.Print, Leaf.Legible, Leaf.Meaning, AllLegible;
    if x.One? {
      LeafReads(x.leaf, rest);
    } else {
      LeavesRead(x.leaves, rest);
      LeavesStart(x.leaves);
      var inner := PrintLeaves(x.leaves) + "}" + rest;
      GroupReads(inner);
      MemberReads(x.key, "{" + inner);
      assert x.Print() + rest == "\"" + KeyText(x.key) + "\":" + ("{" + inner);
    }
  }

  lemma GroupReads(inner: string)
    requires inner != "" && inner[0] == '"'
    ensures ReadValue("{" + inner) ==
            match ReadMembers(inner) case None => None case Some(ms) => Some(Token(Object(ms.value), ms.rest))
  {
    hide ReadMembers;
    assert ("{" + inner)[1..] == inner;
    assert SkipSpace(inner) == inner;
  }

  lemma {:induction false} ItemsRead(xs: seq<Item>, rest: string)
    requires xs != [] && ItemsLegible(xs)
    ensures ReadMembers(PrintItems(xs) + "}" + rest) == Some(Token(ItemMeanings(xs), rest))
  {
    hide ReadMembers, ReadMember, Item.Print, Item.Legible, Item.Meaning;
    assert xs[0].Legible();
    var t := PrintItems(xs) + "}" + rest;
    if |xs| == 1 {
      assert t == xs[0].Print() + ("}" + rest);
      ItemReads(xs[0], "}" + rest);
      MemberEnds(t, xs[0].Meaning(), rest);
      assert xs[1..] == [] && ItemMeanings(xs) == [xs[0].Meaning()];
    } else {
      var next := PrintItems(xs[1..]) + "}" + rest;
      assert t == xs[0].Print() + ("," + next);
      ItemReads(xs[0], "," + next);
      ItemsStart(xs[1..]);
      MemberThen(t, xs[0].Meaning(), next);
      ItemsRead(xs[1..], rest);
    }
  }

  // ---------- members that do not read ----------

  /** Whatever legible items come first, a text that reads as no members spoils the object. */
  lemma {:induction false} ItemsThenBad(xs: seq<Item>, next: string)
    requires ItemsLegible(xs) && next != "" && next[0] == '"' && ReadMembers(next) == None
    ensures ReadMembers((if xs == [] then "" else PrintItems(xs) + ",") + next) == None
  {
    hide ReadMembers, ReadMember, Item.Print, Item.Legible, Item.Meaning;
    if xs == [] {
      assert "" + next == next;
    } else {
      assert xs[0].Legible();
      var more := (if xs[1..] == [] then "" else PrintItems(xs[1..]) + ",") + next;
      var t := PrintItems(xs) + "," + next;
      assert t == xs[0].Print() + ("," + more);
      ItemReads(xs[0], "," + more);
      if |xs| > 1 {
        ItemsStart(xs[1..]);
      }
      MemberThen(t, xs[0].Meaning(), more);
      assert |xs| > 1 ==> xs[1..] != [];
      ItemsThenBad(xs[1..], next);
    }
  }

  lemma GroupOfBad(k: Key, inner: string)
    requires inner != "" && inner[0] == '"' && ReadMembers(inner) == None
    ensures ReadMembers("\"" + KeyText(k) + "\":{" + inner) == None
  {
    hide KeyText, ReadMember, ReadValue;
    var t := "\"" + KeyText(k) + "\":{" + inner;
    GroupReads(inner);
    MemberReads(k, "{" + inner);
    assert t == "\"" + KeyText(k) + "\":" + ("{" + inner);
    NoMember(t);
  }

  lemma NoMember(t: string)
    requires ReadMember(t) == None
    ensures ReadMembers(t) == None
  {
  }

  lemma NoObject(t: string)
    requires t != "" && t[0] == '"' && ReadMembers(t) == None
    ensures Loads("{" + t) == None
  {
    hide ReadMembers;
    GroupReads(t);
    assert SkipSpace("{" + t) == "{" + t;
  }

  /** A text value that never ends. */
  lemma UnterminatedLeaf(k: Key, s: string)
    requires Lacks(s, '"')
    ensures ReadMembers("\"" + KeyText(k) + "\":\"" + s) == None
  {
    hide KeyText, ReadMember, ReadString;
    var t := "\"" + KeyText(k) + "\":\"" + s;
    Unterminated(s);
    assert ("\"" + s)[1..] == s;
    MemberReads(k, "\"" + s);
    assert t == "\"" + KeyText(k) + "\":" + ("\"" + s);
    NoMember(t);
  }

  /** What must follow a text value is neither a comma nor a brace. */
  predicate Spoils(rest: string) { rest != "" && !IsJsonSpace(rest[0]) && rest[0] != ',' && rest[0] != '}' }

  /** A text value that is not legible: its closing quote is swallowed, or nothing reads at all; the
      reader goes wrong unless what stands after the next quote puts it right. */
  lemma BrokenLeaf(k: Key, s: string, rest: string)
    requires Lacks(s, '"') && !Inside(s)
    requires ReadString(rest).Some? ==> Spoils(ReadString(rest).value.rest)
    ensures ReadMembers("\"" + KeyText(k) + "\":\"" + s + "\"" + rest) == None
  {
    BrokenReads(s, rest);
    hide KeyText, ReadMember, ReadString, Inside;
    var t := "\"" + KeyText(k) + "\":\"" + s + "\"" + rest;
    var v := "\"" + (s + "\"" + rest);
    assert v[1..] == s + "\"" + rest;
    MemberReads(k, v);
    assert t == "\"" + KeyText(k) + "\":" + v;
    SpoiledMember(t);
  }

  lemma SpoiledMember(t: string)
    requires ReadMember(t).Some? ==> Spoils(ReadMember(t).value.rest)
    ensures ReadMembers(t) == None
  {
    hide ReadMember;
  }

  /** A legible text followed by neither comma nor brace. */
  lemma SpoiledLeaf(k: Key, s: string, rest: string)
    requires Inside(s) && Spoils(rest)
    ensures ReadMembers("\"" + KeyText(k) + "\":\"" + s + "\"" + rest) == None
  {
    hide KeyText, ReadMember, ReadValue, Inside, InsideValue;
    var t := "\"" + KeyText(k) + "\":\"" + s + "\"" + rest;
    var v := "\"" + s + "\"" + rest;
    StringReads(s, rest);
    MemberReads(k, v);
    assert t == "\"" + KeyText(k) + "\":" + v;
    SpoiledMember(t);
  }

  // ---------- looking a member up ----------

  /** The last item of a name. */
  function Find(xs: seq<Item>, k: Key): Option<Item> {
    if xs == [] then None
    else if xs[|xs| - 1].Name() == k then Some(xs[|xs| - 1])
    else Find(xs[..|xs| - 1], k)
  }

  lemma {:induction false} MeaningsConcat(xs: seq<Item>, x: Item)
    requires ItemsLegible(xs) && x.Legible()
    ensures ItemsLegible(xs + [x]) && ItemMeanings(xs + [x]) == ItemMeanings(xs) + [x.Meaning()]
  {
    hide Item.Legible, Item.Meaning;
    if xs == [] {
      assert xs + [x] == [x];
      assert [x][1..] == [];
    } else {
      assert (xs + [x])[1..] == xs[1..] + [x];
      MeaningsConcat(xs[1..], x);
    }
  }

  /** Looking a key up among the members is finding the item of that name. */
  lemma {:induction false} GetFinds(xs: seq<Item>, k: Key)
    requires ItemsLegible(xs)
    ensures Find(xs, k).Some? ==> Find(xs, k).value.Legible()
    ensures Get(ItemMeanings(xs), KeyText(k)) ==
            if Find(xs, k).None? then Null else Find(xs, k).value.Meaning().value
  {
    hide Item.Legible, KeyText;
    if xs != [] {
      var p, x := xs[..|xs| - 1], xs[|xs| - 1];
      assert xs == p + [x];
      assert x.Legible();
      MeaningsConcat(p, x);
      assert ItemMeanings(xs)[..|p|] == ItemMeanings(p);
      GetFinds(p, k);
      NamesDiffer(x, k);
    }
  }

  lemma NamesDiffer(x: Item, k: Key)
    requires x.Legible()
    ensures x.Meaning().key == KeyText(k) <==> x.Name() == k
  {
    hide KeyText;
    if x.Meaning().key == KeyText(k) {
      KeyTextInjective(x.Name(), k);
    }
  }

  lemma {:induction false} LeavesAsItems(ls: seq<Leaf>)
    requires AllLegible(ls)
    ensures ItemsLegible(Ones(ls)) && ItemMeanings(Ones(ls)) == Meanings(ls)
  {
    if ls != [] {
      LeavesAsItems(ls[1..]);
      assert Ones(ls) == [One(ls[0])] + Ones(ls[1..]);
      assert Ones(ls)[1..] == Ones(ls[1..]);
    }
  }

  function Ones(ls: seq<Leaf>): (r: seq<Item>)
    ensures |r| == |ls| && forall i :: 0 <= i < |r| ==> r[i] == One(ls[i])
  {
    seq(|ls|, i requires 0 <= i < |ls| => One(ls[i]))
  }
}
