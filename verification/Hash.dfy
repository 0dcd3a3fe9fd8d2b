/** src/common/hash.c: the streaming context, updated in place, and its refinement of SHA-256. */
module Hash {
  import opened Sha256

  // ---------- the macros ----------

  function Ep0(x: word): (r: word)
    ensures r == BigSigma0(x)
  {
    ((x >> 2) | (x << 30)) ^ ((x >> 13) | (x << 19)) ^ ((x >> 22) | (x << 10))
  }

  function Ep1(x: word): (r: word)
    ensures r == BigSigma1(x)
  {
    ((x >> 6) | (x << 26)) ^ ((x >> 11) | (x << 21)) ^ ((x >> 25) | (x << 7))
  }

  function Sig0(x: word): (r: word)
    ensures r == SmallSigma0(x)
  {
    ((x >> 7) | (x << 25)) ^ ((x >> 18) | (x << 14)) ^ (x >> 3)
  }

  function Sig1(x: word): (r: word)
    ensures r == SmallSigma1(x)
  {
    ((x >> 17) | (x << 15)) ^ ((x >> 19) | (x << 13)) ^ (x >> 10)
  }

  // ---------- what the context means ----------

  /** The abstract context: the bytes still buffered, the bits compressed so far, the hash state. */
  datatype Value = Value(buf: seq<byte>, bitlen: nat, state: seq<word>) {
    ghost predicate Valid() { |buf| < 64 && bitlen < TWO_64 && |state| == 8 }
  }

  function AbsorbByte(v: Value, b: byte): (r: Value)
    requires v.Valid()
    ensures r.Valid()
  {
    var buf := v.buf + [b];
    if |buf| == 64 then Value([], (v.bitlen + 512) % TWO_64, Compress(v.state, buf)) else v.(buf := buf)
  }

  function Absorb(v: Value, m: seq<byte>): (r: Value)
    requires v.Valid()
    ensures r.Valid()
  {
    if m == [] then v else AbsorbByte(Absorb(v, m[..|m| - 1]), m[|m| - 1])
  }

  function Finish(v: Value): (r: seq<byte>)
    requires v.Valid()
    ensures |r| == 32
  {
    StateBytes(Blocks(v.state, v.buf + Padding(|v.buf|, (v.bitlen + 8 * |v.buf|) % TWO_64)))
  }

  const INIT := Value([], 0, H0())

  // ---------- the context, as the code updates it ----------

  class Context {
    var data: array<byte>
    var datalen: nat
    var bitlen: nat
    var state: array<word>

    ghost predicate Valid()
      reads this, data, state
    {
      && data.Length == 64 && state.Length == 8 && datalen < 64 && bitlen < TWO_64
    }

    ghost function Contents(): (v: Value)
      reads this, data, state
      requires Valid()
      ensures v.Valid()
    {
      Value(data[..datalen], bitlen, state[..])
    }

    constructor ()
      ensures Valid() && fresh(data) && fresh(state) && Contents() == INIT
    {
      data := new byte[64];
      datalen := 0;
      bitlen := 0;
      state := new word[8];
      new;
      for i := 0 to 8
        invariant fresh(data) && fresh(state) && data.Length == 64 && state.Length == 8
        invariant datalen == 0 && bitlen == 0
        invariant forall j :: 0 <= j < i ==> state[j] == H0()[j]
      {
        state[i] := H0()[i];
      }
      assert state[..] == H0();
    }

    method Transform()
      requires data.Length == 64 && state.Length == 8
      modifies state
      ensures state[..] == Compress(old(state[..]), data[..])
    {
      hide Rounds, Schedule, Plus;
      var block, words := data[..], state[..];
      var m := MessageSchedule(block);
      var v := RunRounds(Load(words), block, m);
      AddInto(state, v);
    }

    method PushByte(b: byte)
      requires Valid()
      modifies this`datalen, this`bitlen, data, state
      ensures Valid() && Contents() == AbsorbByte(old(Contents()), b)
    {
      hide Compress, Blocks;
      ghost var before := Contents();
      data[datalen] := b;
      datalen := datalen + 1;
      assert data[..datalen] == before.buf + [b];
      if datalen == 64 {
        assert data[..] == before.buf + [b];
        Transform();
        assert state[..] == Compress(before.state, before.buf + [b]);
        bitlen := (bitlen + 512) % TWO_64;
        datalen := 0;
      }
    }

    method Update(input: seq<byte>)
      requires Valid()
      modifies this`datalen, this`bitlen, data, state
      ensures Valid() && Contents() == Absorb(old(Contents()), input)
    {
      for i := 0 to |input|
        invariant Valid()
        invariant Contents() == Absorb(old(Contents()), input[..i])
      {
        PushByte(input[i]);
        assert input[..i + 1][..i] == input[..i];
      }
      assert input[..|input|] == input;
    }

    /** The bit 1 and the zeros, in the current block or in one more. */
    method Terminate()
      requires Valid()
      modifies data, state
      ensures Valid()
      ensures data[..56] == LastZeros(old(Contents()).buf)
      ensures state[..] == BeforeLast(old(Contents()))
    {
      hide Compress, Blocks;
      ghost var buf := data[..datalen];
      if datalen < 56 {
        PutTerminator(data, datalen, 56);
      } else {
        PutTerminator(data, datalen, 64);
        assert data[..] == data[..64];
        Transform();
        FillZero(data, 0, 56);
        assert data[..56] == Zeros(56);
      }
    }

    method Final() returns (hash: array<byte>)
      requires Valid()
      modifies this`bitlen, data, state
      ensures fresh(hash) && hash[..] == Finish(old(Contents()))
    {
      hide Compress, Blocks;
      ghost var v := Contents();
      Terminate();
      bitlen := (bitlen + datalen * 8) % TWO_64;
      PutLength(data, bitlen);
      Transform();
      FinalBlocks(v, data[..], bitlen);
      hash := SerializeState(state);
    }
  }

  ghost function LastZeros(buf: seq<byte>): seq<byte>
    requires |buf| < 64
  {
    if |buf| < 56 then buf + [0x80] + Zeros(55 - |buf|) else Zeros(56)
  }

  ghost function BeforeLast(v: Value): (r: seq<word>)
    requires v.Valid()
    ensures |r| == 8
  {
    if |v.buf| < 56 then v.state else Compress(v.state, v.buf + [0x80] + Zeros(63 - |v.buf|))
  }

  method PutTerminator(data: array<byte>, from: nat, to: nat)
    requires from < to <= data.Length
    modifies data
    ensures data[..to] == old(data[..from]) + [0x80] + Zeros(to - from - 1)
    ensures data[to..] == old(data[to..])
  {
    data[from] := 0x80;
    FillZero(data, from + 1, to);
  }

  method FillZero(data: array<byte>, from: nat, to: nat)
    requires from <= to <= data.Length
    modifies data
    ensures data[..] == old(data[..from]) + Zeros(to - from) + old(data[to..])
  {
    for i := from to to
      invariant data[..] == old(data[..from]) + Zeros(i - from) + old(data[i..])
    {
      data[i] := 0;
    }
  }

  /** The eight length bytes, most significant first. */
  method PutLength(data: array<byte>, bits: nat)
    requires data.Length == 64 && bits < TWO_64
    modifies data
    ensures data[..] == old(data[..56]) + BigEndian(bits, 8)
  {
    data[63] := (bits % 256) as byte;
    data[62] := (Shr(bits, 1) % 256) as byte;
    data[61] := (Shr(bits, 2) % 256) as byte;
    data[60] := (Shr(bits, 3) % 256) as byte;
    data[59] := (Shr(bits, 4) % 256) as byte;
    data[58] := (Shr(bits, 5) % 256) as byte;
    data[57] := (Shr(bits, 6) % 256) as byte;
    data[56] := (Shr(bits, 7) % 256) as byte;
    forall i | 56 <= i < 64
      ensures data[i] == BigEndian(bits, 8)[i - 56]
    {
      BigEndianAt(bits, 8, 63 - i);
    }
    assert data[56..] == BigEndian(bits, 8);
    assert data[..56] == old(data[..56]);
  }

  /** n >> (8 * k). */
  function Shr(n: nat, k: nat): nat {
    if k == 0 then n else Shr(n / 256, k - 1)
  }

  lemma {:induction false} BigEndianAt(n: nat, width: nat, k: nat)
    requires k < width
    ensures BigEndian(n, width)[width - 1 - k] == (Shr(n, k) % 256) as byte
  {
    if k > 0 {
      BigEndianAt(n / 256, width - 1, k - 1);
    }
  }

  method SerializeState(state: array<word>) returns (hash: array<byte>)
    requires state.Length == 8
    ensures fresh(hash) && hash[..] == StateBytes(state[..])
  {
    hide WordByte;
    hash := new byte[32];
    for i := 0 to 4
      invariant forall k :: 0 <= k < 32 && k % 4 < i ==> hash[k] == WordByte(state[k / 4], k % 4)
    {
      PutColumn(state, i, hash);
    }
    assert hash[..] == StateBytes(state[..]);
  }

  /** One round of the output loop: byte i of each of the eight words. */
  method PutColumn(state: array<word>, i: nat, hash: array<byte>)
    requires state.Length == 8 && hash.Length == 32 && i < 4
    modifies hash
    ensures forall k :: 0 <= k < 32 ==>
              hash[k] == if k % 4 == i then WordByte(state[k / 4], i) else old(hash[k])
  {
    hide WordByte;
    for s := 0 to 8
      invariant forall k :: 0 <= k < 32 ==>
                  hash[k] == if k % 4 == i && k / 4 < s then WordByte(state[k / 4], i) else old(hash[k])
    {
      hash[i + 4 * s] := WordByte(state[s], i);
    }
  }

  lemma BlocksOfNone(s: seq<word>)
    requires |s| == 8
    ensures Blocks(s, []) == s
  {
  }

  lemma OneMoreBlock(s: seq<word>, block: seq<byte>, rest: seq<byte>)
    requires |s| == 8 && |block| == 64
    ensures Blocks(s, block + rest) == Blocks(Compress(s, block), rest)
  {
    assert (block + rest)[..64] == block && (block + rest)[64..] == rest;
  }

  /** The padded tail is one block, or two of which the length fills the end of the second. */
  lemma PaddedTail(buf: seq<byte>, bits: nat)
    requires |buf| < 64
    ensures var all, last := buf + Padding(|buf|, bits), LastZeros(buf) + BigEndian(bits, 8);
            all == if |buf| < 56 then last else buf + [0x80] + Zeros(63 - |buf|) + last
  {
    hide BigEndian;
    var n := |buf|;
    assert n % 64 == n;
    assert (119 - n) % 64 == if n < 56 then 55 - n else 119 - n;
  }

  /** Both padding branches of Final leave the state that one fold over the padded tail gives. */
  lemma FinalBlocks(v: Value, last: seq<byte>, bits: nat)
    requires v.Valid() && last == LastZeros(v.buf) + BigEndian(bits, 8)
    ensures Blocks(v.state, v.buf + Padding(|v.buf|, bits)) == Compress(BeforeLast(v), last)
  {
    hide Compress, Blocks, Padding, BigEndian;
    PaddedTail(v.buf, bits);
    BlocksOfNone(Compress(BeforeLast(v), last));
    OneMoreBlock(BeforeLast(v), last, []);
    assert last + [] == last;
    if |v.buf| >= 56 {
      OneMoreBlock(v.state, v.buf + [0x80] + Zeros(63 - |v.buf|), last);
    }
  }

  method AddInto(state: array<word>, v: Vars)
    requires state.Length == 8
    modifies state
    ensures state[..] == AddVars(old(state[..]), v)
  {
    for i := 0 to 8
      invariant forall j :: 0 <= j < 8 ==> state[j] == if j < i then AddVars(old(state[..]), v)[j] else old(state[j])
    {
      state[i] := Plus(state[i], v.At(i));
    }
  }

  method RunRounds(start: Vars, ghost block: seq<byte>, m: seq<word>) returns (v: Vars)
    requires |block| == 64 && |m| == 64 && forall t :: 0 <= t < 64 ==> m[t] == Schedule(block, t)
    ensures v == Rounds(start, block, 64)
  {
    hide K;
    var a, b, c, d := start.a, start.b, start.c, start.d;
    var e, f, g, h := start.e, start.f, start.g, start.h;
    var i := 0;
    while i < 64
      invariant 0 <= i <= 64
      invariant Vars(a, b, c, d, e, f, g, h) == Rounds(start, block, i)
    {
      var t1 := Plus(Plus(Plus(Plus(h, Ep1(e)), Choose(e, f, g)), K(i)), m[i]);
      var t2 := Plus(Ep0(a), Majority(a, b, c));
      h := g; g := f; f := e; e := Plus(d, t1);
      d := c; c := b; b := a; a := Plus(t1, t2);
      i := i + 1;
    }
    v := Vars(a, b, c, d, e, f, g, h);
  }

  method MessageSchedule(block: seq<byte>) returns (m: seq<word>)
    requires |block| == 64
    ensures |m| == 64 && forall t :: 0 <= t < 64 ==> m[t] == Schedule(block, t)
  {
    hide WordOf, Plus, Sig0, Sig1, SmallSigma0, SmallSigma1;
    var w := new word[64];
    var i, j := 0, 0;
    while i < 16
      invariant 0 <= i <= 16 && j == 4 * i
      invariant forall t :: 0 <= t < i ==> w[t] == Schedule(block, t)
    {
      w[i] := WordOf(block[j], block[j + 1], block[j + 2], block[j + 3]);
      i, j := i + 1, j + 4;
    }
    while i < 64
      invariant 16 <= i <= 64
      invariant forall t :: 0 <= t < i ==> w[t] == Schedule(block, t)
    {
      w[i] := Plus(Plus(Plus(Sig1(w[i - 2]), w[i - 7]), Sig0(w[i - 15])), w[i - 16]);
      i := i + 1;
    }
    m := w[..];
  }

  // ---------- the digest functions ----------

  function HexDigit(n: nat): (c: char)
    requires n < 16
    ensures IsHexDigit(c)
  {
    if n < 10 then '0' + n as char else 'a' + (n - 10) as char
  }

  predicate IsHexDigit(c: char) { '0' <= c <= '9' || 'a' <= c <= 'f' }

  function Hex(h: seq<byte>): (s: string)
    ensures |s| == 2 * |h| && forall i :: 0 <= i < |s| ==> IsHexDigit(s[i])
  {
    if h == [] then [] else
      Hex(h[..|h| - 1]) + [HexDigit(h[|h| - 1] as nat / 16), HexDigit(h[|h| - 1] as nat % 16)]
  }

  function HexDigest(m: seq<byte>): (s: string)
    ensures |s| == 64 && forall i :: 0 <= i < 64 ==> IsHexDigit(s[i])
  {
    Hex(Digest(m))
  }

  method HexInto(hash: array<byte>, out: array<char>)
    requires hash.Length == 32 && out.Length == 65
    modifies out
    ensures out[..64] == Hex(hash[..]) && out[64] == '\0'
  {
    for i := 0 to 32
      invariant out[..2 * i] == Hex(hash[..i])
    {
      out[2 * i] := HexDigit(hash[i] as nat / 16);
      out[2 * i + 1] := HexDigit(hash[i] as nat % 16);
      assert hash[..i + 1][..i] == hash[..i];
      assert out[..2 * (i + 1)] == out[..2 * i] + [out[2 * i], out[2 * i + 1]];
    }
    out[64] := '\0';
    assert hash[..32] == hash[..];
  }

  method BytesHex(input: seq<byte>) returns (out: array<char>)
    ensures fresh(out) && out.Length == 65 && out[..64] == HexDigest(input) && out[64] == '\0'
  {
    hide Absorb, Finish, Digest, Hex;
    var ctx := new Context();
    ctx.Update(input);
    var hash := ctx.Final();
    FinishAbsorbed(input);
    out := new char[65];
    HexInto(hash, out);
  }

  ghost function Concat(chunks: seq<seq<byte>>): seq<byte> {
    if chunks == [] then [] else Concat(chunks[..|chunks| - 1]) + chunks[|chunks| - 1]
  }

  /** chunks are what the successive reads return before the one that returns nothing. */
  method FileHex(chunks: seq<seq<byte>>, readError: bool) returns (ok: bool, out: array<char>)
    requires forall c :: c in chunks ==> 0 < |c| <= 8192
    ensures ok == !readError && fresh(out) && out.Length == 65
    ensures ok ==> out[..64] == HexDigest(Concat(chunks)) && out[64] == '\0'
  {
    hide Finish, Digest, Hex;
    out := new char[65];
    var ctx := new Context();
    for i := 0 to |chunks|
      invariant fresh(ctx) && fresh(ctx.data) && fresh(ctx.state) && ctx.Valid() && out.Length == 65
      invariant fresh(out) && ctx.Contents() == Absorb(INIT, Concat(chunks[..i]))
    {
      ctx.Update(chunks[i]);
      AbsorbConcat(INIT, Concat(chunks[..i]), chunks[i]);
      assert chunks[..i + 1][..i] == chunks[..i];
    }
    assert chunks[..|chunks|] == chunks;
    if readError {
      return false, out;
    }
    var hash := ctx.Final();
    FinishAbsorbed(Concat(chunks));
    HexInto(hash, out);
    ok := true;
  }

  // ---------- what the streaming form computes ----------

  /** Hashing does not depend on how the input is cut into updates. */
  lemma {:induction false} AbsorbConcat(v: Value, x: seq<byte>, y: seq<byte>)
    requires v.Valid()
    ensures Absorb(Absorb(v, x), y) == Absorb(v, x + y)
  {
    hide AbsorbByte;
    if y == [] {
      assert x + y == x;
    } else {
      var z := y[..|y| - 1];
      AbsorbConcat(v, x, z);
      assert (x + y)[..|x + y| - 1] == x + z;
    }
  }

  /** Folding whole blocks splits at any block boundary. */
  lemma {:induction false} BlocksSplit(s: seq<word>, x: seq<byte>, y: seq<byte>)
    requires |s| == 8 && |x| % 64 == 0
    ensures Blocks(s, x + y) == Blocks(Blocks(s, x), y)
    decreases |x|
  {
    hide Compress;
    if x == [] {
      assert x + y == y;
    } else {
      assert (x + y)[..64] == x[..64] && (x + y)[64..] == x[64..] + y;
      BlocksSplit(Compress(s, x[..64]), x[64..], y);
    }
  }

  /** After absorbing m the context holds m's last partial block, and the fold of the blocks before it. */
  lemma {:induction false} AbsorbedFromInit(m: seq<byte>)
    ensures var whole := WholeBlocks(|m|);
            Absorb(INIT, m) == Value(m[whole..], 8 * whole % TWO_64, Blocks(H0(), m[..whole]))
  {
    hide Compress, H0, AbsorbByte;
    if m == [] {
      assert WholeBlocks(0) == 0;
      BlocksOfNone(H0());
    } else {
      var p := m[..|m| - 1];
      AbsorbedFromInit(p);
      AbsorbOneMore(p, m[|m| - 1]);
      assert m == p + [m[|m| - 1]];
    }
  }

  /** Where the last partial block starts. */
  function WholeBlocks(n: nat): (w: nat)
    ensures w <= n < w + 64 && w % 64 == 0
  {
    n - n % 64
  }

  lemma OneMoreByte(n: nat)
    ensures WholeBlocks(n + 1) == if (n + 1) % 64 == 0 then WholeBlocks(n) + 64 else WholeBlocks(n)
    ensures (n + 1) % 64 == 0 <==> n - WholeBlocks(n) == 63
    ensures (8 * WholeBlocks(n) % TWO_64 + 512) % TWO_64 == 8 * (WholeBlocks(n) + 64) % TWO_64
  {
    NextRemainder(n);
  }

  lemma NextRemainder(n: nat)
    ensures (n + 1) % 64 == if n % 64 == 63 then 0 else n % 64 + 1
  {
  }

  lemma AbsorbOneMore(p: seq<byte>, b: byte)
    ensures var m, whole, before := p + [b], WholeBlocks(|p| + 1), WholeBlocks(|p|);
            AbsorbByte(Value(p[before..], 8 * before % TWO_64, Blocks(H0(), p[..before])), b)
            == Value(m[whole..], 8 * whole % TWO_64, Blocks(H0(), m[..whole]))
  {
    hide Compress, H0, Blocks, WholeBlocks;
    OneMoreByte(|p|);
    var m, whole, before := p + [b], WholeBlocks(|p| + 1), WholeBlocks(|p|);
    var buf := p[before..] + [b];
    if |m| % 64 == 0 {
      assert m[whole..] == [];
      assert m[..whole] == p[..before] + buf;
      FullBlock(p[..before], buf);
    } else {
      assert m[..whole] == p[..whole] && m[whole..] == buf;
    }
  }

  lemma FullBlock(front: seq<byte>, block: seq<byte>)
    requires |front| % 64 == 0 && |block| == 64
    ensures Blocks(H0(), front + block) == Compress(Blocks(H0(), front), block)
  {
    hide Compress, H0, Blocks;
    var s := Blocks(H0(), front);
    BlocksSplit(H0(), front, block);
    OneMoreBlock(s, block, []);
    BlocksOfNone(Compress(s, block));
    assert block + [] == block;
  }

  function Pow256(k: nat): (r: nat)
    ensures r > 0
  {
    if k == 0 then 1 else 256 * Pow256(k - 1)
  }

  lemma ModOfMod(n: nat, q: nat)
    requires q > 0
    ensures n % (256 * q) % 256 == n % 256 && n % (256 * q) / 256 == n / 256 % q
  {
    var k, c, b := n / 256 / q, n / 256 % q, n % 256;
    assert n == 256 * (q * k + c) + b;
    assert n == (256 * q) * k + (256 * c + b);
    DivModUnique(n, 256 * q, k, 256 * c + b);
  }

  lemma AtLeastOnce(d: nat, x: int)
    requires x >= 1
    ensures d * x >= d
  {
  }

  lemma DivModUnique(n: nat, d: nat, k: nat, r: nat)
    requires r < d && n == d * k + r
    ensures n / d == k && n % d == r
  {
    var q := n / d;
    assert d * (q - k) == r - n % d;
    if q < k {
      AtLeastOnce(d, k - q);
    } else if q > k {
      AtLeastOnce(d, q - k);
    }
  }

  /** A field of a given width holds a number modulo 256^width. */
  lemma {:induction false} BigEndianWraps(n: nat, width: nat)
    ensures BigEndian(n % Pow256(width), width) == BigEndian(n, width)
  {
    if width > 0 {
      ModOfMod(n, Pow256(width - 1));
      BigEndianWraps(n / 256, width - 1);
    }
  }

  lemma {:induction false} BigEndianRoundTrip(n: nat, width: nat)
    requires n < Pow256(width)
    ensures FromBigEndian(BigEndian(n, width)) == n
  {
    if width > 0 {
      BigEndianRoundTrip(n / 256, width - 1);
      var r := BigEndian(n, width);
      assert r[..|r| - 1] == BigEndian(n / 256, width - 1);
    }
  }

  lemma Pow256Of8()
    ensures Pow256(8) == TWO_64
  {
    assert Pow256(4) == 0x1_0000_0000;
  }

  /** The padded message ends in the bit count, which is exact below 2^61 bytes. */
  lemma LengthField(m: seq<byte>)
    ensures FromBigEndian(Pad(m)[|Pad(m)| - 8..]) == 8 * |m| % TWO_64
  {
    Pow256Of8();
    BigEndianWraps(8 * |m|, 8);
    BigEndianRoundTrip(8 * |m| % TWO_64, 8);
    assert Pad(m)[|Pad(m)| - 8..] == BigEndian(8 * |m|, 8);
  }

  lemma PadExtends(m: seq<byte>)
    ensures |m| + 9 <= |Pad(m)| && Pad(m)[..|m|] == m
  {
  }

  /** Padding is unambiguous: two messages under 2^61 bytes with the same padded form are equal. */
  lemma PadInjective(m1: seq<byte>, m2: seq<byte>)
    requires 8 * |m1| < TWO_64 && 8 * |m2| < TWO_64 && Pad(m1) == Pad(m2)
    ensures m1 == m2
  {
    hide Pad, BigEndian, FromBigEndian;
    LengthField(m1);
    LengthField(m2);
    PadExtends(m1);
    PadExtends(m2);
  }

  lemma TailPadding(n: nat)
    ensures var whole := WholeBlocks(n);
            Padding(n - whole, (8 * whole % TWO_64 + 8 * (n - whole)) % TWO_64) == Padding(n, 8 * n)
  {
    hide BigEndian;
    var whole := WholeBlocks(n);
    assert (n - whole) % 64 == n % 64;
    assert (8 * whole % TWO_64 + 8 * (n - whole)) % TWO_64 == 8 * n % TWO_64;
    Pow256Of8();
    BigEndianWraps(8 * n, 8);
  }

  /** A message cut after its whole blocks pads as the rest of it does. */
  lemma PadSplit(m: seq<byte>)
    ensures var whole := WholeBlocks(|m|);
            Blocks(H0(), Pad(m)) == Blocks(Blocks(H0(), m[..whole]), m[whole..] + Padding(|m|, 8 * |m|))
  {
    hide Compress, H0, Blocks, Padding, WholeBlocks;
    var whole := WholeBlocks(|m|);
    var tail := m[whole..] + Padding(|m|, 8 * |m|);
    assert Pad(m) == m[..whole] + tail;
    BlocksSplit(H0(), m[..whole], tail);
  }

  /** The streaming code computes SHA-256 of everything it was fed. */
  lemma FinishAbsorbed(m: seq<byte>)
    ensures Finish(Absorb(INIT, m)) == Digest(m)
  {
    hide Compress, H0, Absorb, Blocks, Padding, StateBytes, Pad, WholeBlocks;
    AbsorbedFromInit(m);
    TailPadding(|m|);
    PadSplit(m);
  }

  function UnhexDigit(c: char): nat
    requires IsHexDigit(c)
  {
    if c <= '9' then c as nat - '0' as nat else c as nat - 'a' as nat + 10
  }

  function UnhexPair(high: char, low: char): byte
    requires IsHexDigit(high) && IsHexDigit(low)
  {
    (UnhexDigit(high) * 16 + UnhexDigit(low)) as byte
  }

  function Unhex(s: string): seq<byte>
    requires |s| % 2 == 0 && forall i :: 0 <= i < |s| ==> IsHexDigit(s[i])
  {
    if s == [] then [] else Unhex(s[..|s| - 2]) + [UnhexPair(s[|s| - 2], s[|s| - 1])]
  }

  /** The hex form loses nothing. */
  lemma {:induction false} HexRoundTrip(h: seq<byte>)
    ensures Unhex(Hex(h)) == h
  {
    hide HexDigit, UnhexPair, Unhex;
    if h == [] {
      UnhexNothing();
    } else {
      var p, b := h[..|h| - 1], h[|h| - 1];
      HexRoundTrip(p);
      DigitsRoundTrip(b);
      UnhexAppend(Hex(p), HexDigit(b as nat / 16), HexDigit(b as nat % 16));
      assert h == p + [b];
    }
  }

  lemma UnhexNothing()
    ensures Unhex("") == []
  {
  }

  lemma UnhexAppend(s: string, high: char, low: char)
    requires |s| % 2 == 0 && (forall i :: 0 <= i < |s| ==> IsHexDigit(s[i])) && IsHexDigit(high) && IsHexDigit(low)
    ensures Unhex(s + [high, low]) == Unhex(s) + [UnhexPair(high, low)]
  {
    hide UnhexPair, IsHexDigit;
    var t := s + [high, low];
    assert t != [] && t[..|t| - 2] == s && t[|t| - 2] == high && t[|t| - 1] == low;
  }

  lemma DigitsRoundTrip(b: byte)
    ensures UnhexPair(HexDigit(b as nat / 16), HexDigit(b as nat % 16)) == b
  {
  }

  /** Four octets make up their word. */
  lemma OctetsRoundTrip(w: word)
    ensures ((Octet(w, 0) as word) << 24) | ((Octet(w, 1) as word) << 16)
            | ((Octet(w, 2) as word) << 8) | (Octet(w, 3) as word) == w
  {
  }

  lemma OctetsTellWord(v: word, w: word)
    requires Octet(v, 0) == Octet(w, 0) && Octet(v, 1) == Octet(w, 1) && Octet(v, 2) == Octet(w, 2)
    requires Octet(v, 3) == Octet(w, 3)
    ensures v == w
  {
    OctetsRoundTrip(v);
    OctetsRoundTrip(w);
    hide Octet;
  }

  lemma ByteTellsOctet(a: bv8, b: bv8)
    requires a as byte == b as byte
    ensures a == b
  {
    assert a as byte as bv8 == a && b as byte as bv8 == b;
  }

  /** The output bytes are the words in big-endian order, and nothing of the state is lost in them. */
  lemma StateBytesInjective(a: seq<word>, b: seq<word>)
    requires |a| == |b| == 8 && StateBytes(a) == StateBytes(b)
    ensures a == b
  {
    hide Octet;
    forall i | 0 <= i < 8
      ensures a[i] == b[i]
    {
      forall k | 0 <= k < 4
        ensures Octet(a[i], k) == Octet(b[i], k)
      {
        assert StateBytes(a)[4 * i + k] == WordByte(a[i], k) && StateBytes(b)[4 * i + k] == WordByte(b[i], k);
        ByteTellsOctet(Octet(a[i], k), Octet(b[i], k));
      }
      OctetsTellWord(a[i], b[i]);
    }
  }

  /** Two messages have the same digest exactly when their padded blocks end in the same state. */
  lemma DigestTellsState(m: seq<byte>, n: seq<byte>)
    ensures Digest(m) == Digest(n) <==> Blocks(H0(), Pad(m)) == Blocks(H0(), Pad(n))
  {
    hide Blocks, Pad, StateBytes, H0;
    if Digest(m) == Digest(n) {
      StateBytesInjective(Blocks(H0(), Pad(m)), Blocks(H0(), Pad(n)));
    }
  }
}
