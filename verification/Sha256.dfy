/** SHA-256 as FIPS 180-4 defines it, and the streaming in-place implementation in
    src/common/hash.c proved against it.  Bytes are numbers below 256 and words bv32; the 64-bit
    bit counter is a number kept below 2^64. */
module Sha256 {
  newtype byte = x: int | 0 <= x < 256
  type word = bv32

  const TWO_64: nat := 0x1_0000_0000_0000_0000

  /** One of eight words. */
  function Pick(i: nat, a: word, b: word, c: word, d: word, e: word, f: word, g: word, h: word): word
    requires i < 8
  {
    if i < 4 then
      if i < 2 then (if i == 0 then a else b) else if i == 2 then c else d
    else if i < 6 then (if i == 4 then e else f) else if i == 6 then g else h
  }

  /** The table k of hash.c, row by row. */
  function K(t: nat): word
    requires t < 64
  {
    if t < 8 then
      Pick(t, 0x428a2f98, 0x71374491, 0xb5c0fbcf, 0xe9b5dba5,
           0x3956c25b, 0x59f111f1, 0x923f82a4, 0xab1c5ed5)
    else if t < 16 then
      Pick(t - 8, 0xd807aa98, 0x12835b01, 0x243185be, 0x550c7dc3,
           0x72be5d74, 0x80deb1fe, 0x9bdc06a7, 0xc19bf174)
    else if t < 24 then
      Pick(t - 16, 0xe49b69c1, 0xefbe4786, 0x0fc19dc6, 0x240ca1cc,
           0x2de92c6f, 0x4a7484aa, 0x5cb0a9dc, 0x76f988da)
    else if t < 32 then
      Pick(t - 24, 0x983e5152, 0xa831c66d, 0xb00327c8, 0xbf597fc7,
           0xc6e00bf3, 0xd5a79147, 0x06ca6351, 0x14292967)
    else if t < 40 then
      Pick(t - 32, 0x27b70a85, 0x2e1b2138, 0x4d2c6dfc, 0x53380d13,
           0x650a7354, 0x766a0abb, 0x81c2c92e, 0x92722c85)
    else if t < 48 then
      Pick(t - 40, 0xa2bfe8a1, 0xa81a664b, 0xc24b8b70, 0xc76c51a3,
           0xd192e819, 0xd6990624, 0xf40e3585, 0x106aa070)
    else if t < 56 then
      Pick(t - 48, 0x19a4c116, 0x1e376c08, 0x2748774c, 0x34b0bcb5,
           0x391c0cb3, 0x4ed8aa4a, 0x5b9cca4f, 0x682e6ff3)
    else
      Pick(t - 56, 0x748f82ee, 0x78a5636f, 0x84c87814, 0x8cc70208,
           0x90befffa, 0xa4506ceb, 0xbef9a3f7, 0xc67178f2)
  }

  /** The initial hash state of hash.c. */
  function H0(): (r: seq<word>)
    ensures |r| == 8
  {
    [0x6a09e667, 0xbb67ae85, 0x3c6ef372, 0xa54ff53a, 0x510e527f, 0x9b05688c, 0x1f83d9ab, 0x5be0cd19]
  }

  /** Addition of words, which is modulo 2^32. */
  function Plus(x: word, y: word): word { x + y }

  // ---------- FIPS 180-4: functions (section 4.1.2), schedule and rounds (section 6.2.2) ----------

  function Choose(x: word, y: word, z: word): word { (x & y) ^ (!x & z) }
  function Majority(x: word, y: word, z: word): word { (x & y) ^ (x & z) ^ (y & z) }
  function BigSigma0(x: word): word { x.RotateRight(2) ^ x.RotateRight(13) ^ x.RotateRight(22) }
  function BigSigma1(x: word): word { x.RotateRight(6) ^ x.RotateRight(11) ^ x.RotateRight(25) }
  function SmallSigma0(x: word): word { x.RotateRight(7) ^ x.RotateRight(18) ^ (x >> 3) }
  function SmallSigma1(x: word): word { x.RotateRight(17) ^ x.RotateRight(19) ^ (x >> 10) }

  /** The word whose big-endian bytes are b0 b1 b2 b3. */
  function WordOf(b0: byte, b1: byte, b2: byte, b3: byte): word {
    ((b0 as bv8 as word) << 24) | ((b1 as bv8 as word) << 16) | ((b2 as bv8 as word) << 8) | (b3 as bv8 as word)
  }

  function Schedule(block: seq<byte>, t: nat): word
    requires |block| == 64 && t < 64
  {
    if t < 16 then WordOf(block[4 * t], block[4 * t + 1], block[4 * t + 2], block[4 * t + 3])
    else Plus(Plus(Plus(SmallSigma1(Schedule(block, t - 2)), Schedule(block, t - 7)),
                   SmallSigma0(Schedule(block, t - 15))), Schedule(block, t - 16))
  }

  datatype Vars = Vars(a: word, b: word, c: word, d: word, e: word, f: word, g: word, h: word) {
    function At(i: nat): word
      requires i < 8
    {
      Pick(i, a, b, c, d, e, f, g, h)
    }
  }

  function Round(v: Vars, k: word, w: word): Vars {
    var t1 := Plus(Plus(Plus(Plus(v.h, BigSigma1(v.e)), Choose(v.e, v.f, v.g)), k), w);
    var t2 := Plus(BigSigma0(v.a), Majority(v.a, v.b, v.c));
    Vars(Plus(t1, t2), v.a, v.b, v.c, Plus(v.d, t1), v.e, v.f, v.g)
  }

  /** The working variables after the first t rounds on a block. */
  function Rounds(v: Vars, block: seq<byte>, t: nat): Vars
    requires |block| == 64 && t <= 64
  {
    if t == 0 then v else Round(Rounds(v, block, t - 1), K(t - 1), Schedule(block, t - 1))
  }

  function Load(s: seq<word>): Vars
    requires |s| == 8
  {
    Vars(s[0], s[1], s[2], s[3], s[4], s[5], s[6], s[7])
  }

  function AddVars(s: seq<word>, v: Vars): (r: seq<word>)
    requires |s| == 8
    ensures |r| == 8
  {
    seq(8, i requires 0 <= i < 8 => Plus(s[i], v.At(i)))
  }

  function Compress(s: seq<word>, block: seq<byte>): (r: seq<word>)
    requires |s| == 8 && |block| == 64
    ensures |r| == 8
  {
    AddVars(s, Rounds(Load(s), block, 64))
  }

  /** The hash state after every whole 64-byte block of m. */
  function Blocks(s: seq<word>, m: seq<byte>): (r: seq<word>)
    requires |s| == 8
    ensures |r| == 8
    decreases |m|
  {
    if |m| < 64 then s else Blocks(Compress(s, m[..64]), m[64..])
  }

  // ---------- FIPS 180-4: padding (section 5.1.1) and the digest ----------

  function Zeros(n: nat): (r: seq<byte>)
    ensures |r| == n && forall i :: 0 <= i < n ==> r[i] == 0
  {
    seq(n, _ => 0)
  }

  /** n as a big-endian number of the given width in bytes. */
  function BigEndian(n: nat, width: nat): (r: seq<byte>)
    ensures |r| == width
  {
    if width == 0 then [] else BigEndian(n / 256, width - 1) + [(n % 256) as byte]
  }

  function FromBigEndian(s: seq<byte>): nat {
    if s == [] then 0 else FromBigEndian(s[..|s| - 1]) * 256 + s[|s| - 1] as nat
  }

  /** What follows a message of `length` bytes: the bit 1, the fewest 0 bits, the bit count. */
  function Padding(length: nat, bits: nat): (r: seq<byte>)
    ensures (length + |r|) % 64 == 0 && 9 <= |r| <= 72
  {
    [0x80] + Zeros((119 - length % 64) % 64) + BigEndian(bits, 8)
  }

  function Pad(m: seq<byte>): (r: seq<byte>)
    ensures |r| % 64 == 0
  {
    m + Padding(|m|, 8 * |m|)
  }

  function Octet(w: word, i: nat): bv8
    requires i < 4
  {
    ((if i == 0 then w >> 24 else if i == 1 then w >> 16 else if i == 2 then w >> 8 else w) & 0xff) as bv8
  }

  /** Byte i of a word, most significant first. */
  function WordByte(w: word, i: nat): byte
    requires i < 4
  {
    Octet(w, i) as byte
  }

  function StateBytes(s: seq<word>): (r: seq<byte>)
    requires |s| == 8
    ensures |r| == 32
  {
    seq(32, i requires 0 <= i < 32 => WordByte(s[i / 4], i % 4))
  }

  /** The SHA-256 digest of m (defined by the standard when m is under 2^61 bytes). */
  function Digest(m: seq<byte>): (r: seq<byte>)
    ensures |r| == 32
  {
    StateBytes(Blocks(H0(), Pad(m)))
  }
}
