/** The hash chain emit_line threads through a tracer's event bodies. */
module HashChain {
  import opened CText
  import opened Sha256
  import opened Hash

  /** The bytes of a C string. */
  function Bytes(s: string): (r: seq<byte>)
    ensures |r| == |s|
  {
    seq(|s|, i requires 0 <= i < |s| => (s[i] as nat % 256) as byte)
  }

  predicate IsByteString(s: string) { forall i :: 0 <= i < |s| ==> s[i] as nat < 256 }

  lemma BytesInjective(a: string, b: string)
    requires IsByteString(a) && IsByteString(b) && Bytes(a) == Bytes(b)
    ensures a == b
  {
    forall i | 0 <= i < |a|
      ensures a[i] == b[i]
    {
      assert Bytes(a)[i] == Bytes(b)[i];
    }
  }

  const GENESIS := "00"
  const MATERIAL_SIZE := 8192

  /** What is hashed: the previous hash and the body, cut to the 8192-char buffer. */
  function Material(prevHash: string, body: string): string {
    Snprintf(MATERIAL_SIZE, prevHash + "|" + body)
  }

  function ChainHash(prevHash: string, body: string): (h: string)
    ensures |h| == 64 && forall i :: 0 <= i < 64 ==> IsHexDigit(h[i])
  {
    HexDigest(Bytes(Material(prevHash, body)))
  }

  /** The last event hash of a log. */
  function LastHash(bodies: seq<string>): (h: string)
    ensures |h| == if bodies == [] then 2 else 64
  {
    if bodies == [] then GENESIS else ChainHash(LastHash(bodies[..|bodies| - 1]), bodies[|bodies| - 1])
  }

  /** The chain starts from "00"; each hash is that of the hash before, a bar and the body, cut at 8191 chars. */
  lemma ChainSpelled(bodies: seq<string>, body: string)
    ensures LastHash([]) == "00"
    ensures var text := LastHash(bodies) + "|" + body;
            LastHash(bodies + [body]) == HexDigest(Bytes(if |text| <= 8191 then text else text[..8191]))
  {
    hide HexDigest, Bytes;
    assert (bodies + [body])[..|bodies|] == bodies;
  }

  lemma LastHashPlain(bodies: seq<string>)
    ensures var h := LastHash(bodies); Lacks(h, '|') && Lacks(h, '"') && Lacks(h, '\n') && IsByteString(h)
  {
    hide HexDigest;
    if bodies != [] {
      var h := ChainHash(LastHash(bodies[..|bodies| - 1]), bodies[|bodies| - 1]);
      assert forall i :: 0 <= i < 64 ==> IsHexDigit(h[i]);
    }
  }

  /** A body whose material is hashed in full. */
  predicate Whole(body: string) { |body| <= MATERIAL_SIZE - 66 && IsByteString(body) }

  ghost predicate Collision(x: seq<byte>, y: seq<byte>) { x != y && Digest(x) == Digest(y) }

  /** Where two logs with the same last hash differ, going back from their ends. */
  function Clash(a: seq<string>, b: seq<string>): (seq<byte>, seq<byte>) {
    if a == [] || b == [] then ([], [])
    else
      var x := Material(LastHash(a[..|a| - 1]), a[|a| - 1]);
      var y := Material(LastHash(b[..|b| - 1]), b[|b| - 1]);
      if x != y then (Bytes(x), Bytes(y)) else Clash(a[..|a| - 1], b[..|b| - 1])
  }

  lemma BarNotEarlier(h1: string, b1: string, h2: string, b2: string)
    requires Lacks(h2, '|') && h1 + "|" + b1 == h2 + "|" + b2
    ensures |h1| >= |h2|
  {
    assert (h1 + "|" + b1)[|h1|] == '|';
    assert forall i :: 0 <= i < |h2| ==> (h2 + "|" + b2)[i] == h2[i] != '|';
  }

  lemma SplitAtBar(h1: string, b1: string, h2: string, b2: string)
    requires Lacks(h1, '|') && Lacks(h2, '|') && h1 + "|" + b1 == h2 + "|" + b2
    ensures h1 == h2 && b1 == b2
  {
    BarNotEarlier(h1, b1, h2, b2);
    BarNotEarlier(h2, b2, h1, b1);
    var x, y := h1 + "|" + b1, h2 + "|" + b2;
    assert h1 == x[..|h1|] && h2 == y[..|h2|];
    assert b1 == x[|h1| + 1..] && b2 == y[|h2| + 1..];
  }

  lemma HexDigestInjective(x: seq<byte>, y: seq<byte>)
    requires HexDigest(x) == HexDigest(y)
    ensures Digest(x) == Digest(y)
  {
    hide Hex, Unhex, Digest;
    HexRoundTrip(Digest(x));
    HexRoundTrip(Digest(y));
  }

  /** The last hash binds the whole log: two logs that end in the same hash are the same log, or a
      collision of SHA-256 can be read off them.  No assumption on their lengths. */
  lemma {:induction false} ChainBinds(a: seq<string>, b: seq<string>)
    requires forall i :: 0 <= i < |a| ==> Whole(a[i])
    requires forall i :: 0 <= i < |b| ==> Whole(b[i])
    requires LastHash(a) == LastHash(b)
    ensures a == b || Collision(Clash(a, b).0, Clash(a, b).1)
  {
    hide Digest, HexDigest, Bytes;
    if a != [] && b != [] {
      var a', b', x, y := a[..|a| - 1], b[..|b| - 1], a[|a| - 1], b[|b| - 1];
      var m, n := Material(LastHash(a'), x), Material(LastHash(b'), y);
      LastHashPlain(a');
      LastHashPlain(b');
      assert m == LastHash(a') + "|" + x && n == LastHash(b') + "|" + y;
      if m == n {
        SplitAtBar(LastHash(a'), x, LastHash(b'), y);
        ChainBinds(a', b');
        assert a == a' + [x] && b == b' + [y];
      } else {
        HexDigestInjective(Bytes(m), Bytes(n));
        if Bytes(m) == Bytes(n) {
          BytesInjective(m, n);
        }
      }
    }
  }
}
