/** SHA-256 pinned from outside its formulas: what the two bitwise functions do bit by bit, and the digest
    that FIPS 180-4 publishes for "abc". */
module Sha256Known {
  import opened Sha256
  import opened HashChain
  import opened Hash

  // ---------- the functions of section 4.1.2, bit by bit ----------

  /** A bit: a word with a single 1. */
  predicate OneBit(m: word) { m != 0 && m & (m - 1) == 0 }

  predicate Has(x: word, m: word) { x & m == m }

  lemma HasOrLacks(x: word, m: word)
    requires OneBit(m)
    ensures x & m == m || x & m == 0
  {
  }

  /** Ch takes each bit from y where x has a 1, and from z elsewhere. */
  lemma ChooseBits(x: word, y: word, z: word, m: word)
    requires OneBit(m)
    ensures Has(Choose(x, y, z), m) == if Has(x, m) then Has(y, m) else Has(z, m)
  {
    HasOrLacks(x, m);
  }

  /** Maj has each bit that at least two of its words have. */
  lemma MajorityBits(x: word, y: word, z: word, m: word)
    requires OneBit(m)
    ensures Has(Majority(x, y, z), m) <==>
            (Has(x, m) && Has(y, m)) || (Has(x, m) && Has(z, m)) || (Has(y, m) && Has(z, m))
  {
    HasOrLacks(x, m);
    HasOrLacks(y, m);
    HasOrLacks(z, m);
  }

  /** After the rounds each word of the state grows by its working variable, modulo 2^32. */
  lemma CompressAdds(s: seq<word>, block: seq<byte>, i: nat)
    requires |s| == 8 && |block| == 64 && i < 8
    ensures Compress(s, block)[i] == s[i] + Rounds(Load(s), block, 64).At(i)
  {
    hide Rounds, Load, Vars.At;
  }

  // ---------- the message "abc" ----------

  /** The schedule of the one block of "abc". */
  function AbcWord(t: nat): word
    requires t < 64
  {
    if t < 8 then
      Pick(t, 0x61626380, 0x00000000, 0x00000000, 0x00000000,
           0x00000000, 0x00000000, 0x00000000, 0x00000000)
    else if t < 16 then
      Pick(t - 8, 0x00000000, 0x00000000, 0x00000000, 0x00000000,
           0x00000000, 0x00000000, 0x00000000, 0x00000018)
    else if t < 24 then
      Pick(t - 16, 0x61626380, 0x000f0000, 0x7da86405, 0x600003c6,
           0x3e9d7b78, 0x0183fc00, 0x12dcbfdb, 0xe2e2c38e)
    else if t < 32 then
      Pick(t - 24, 0xc8215c1a, 0xb73679a2, 0xe5bc3909, 0x32663c5b,
           0x9d209d67, 0xec8726cb, 0x702138a4, 0xd3b7973b)
    else if t < 40 then
      Pick(t - 32, 0x93f5997f, 0x3b68ba73, 0xaff4ffc1, 0xf10a5c62,
           0x0a8b3996, 0x72af830a, 0x9409e33e, 0x24641522)
    else if t < 48 then
      Pick(t - 40, 0x9f47bf94, 0xf0a64f5a, 0x3e246a79, 0x27333ba3,
           0x0c4763f2, 0x840abf27, 0x7a290d5d, 0x065c43da)
    else if t < 56 then
      Pick(t - 48, 0xfb3e89cb, 0xcc7617db, 0xb9e66c34, 0xa9993667,
           0x84badedd, 0xc21462bc, 0x1487472c, 0xb20f7a99)
    else
      Pick(t - 56, 0xef57b9cd, 0xebe6b238, 0x9fe3095e, 0x78bc8d4b,
           0xa43fcf15, 0x668b2ff8, 0xeeaba2cc, 0x12b1edeb)
  }

  /** The first working variable, from three rounds before the start on. */
  function AbcFirst(t: nat): word
    requires t < 68
  {
    if t < 8 then
      Pick(t, 0xa54ff53a, 0x3c6ef372, 0xbb67ae85, 0x6a09e667,
           0x5d6aebcd, 0x5a6ad9ad, 0xc8c347a7, 0xd550f666)
    else if t < 16 then
      Pick(t - 8, 0x04409a6a, 0x2b4209f5, 0xe5030380, 0x85a07b5f,
           0x8e04ecb9, 0x8c87346b, 0x4798a3f4, 0xf71fc5a9)
    else if t < 24 then
      Pick(t - 16, 0x87912990, 0xd932eb16, 0xc0645fde, 0xb0fa238e,
           0x21da9a9b, 0xc2fbd9d1, 0xfe777bbf, 0xe1f20c33)
    else if t < 32 then
      Pick(t - 24, 0x9dc68b63, 0xc2606d6d, 0xa7a3623f, 0xc5d53d8d,
           0x1c2c2838, 0xcde8037d, 0xb62ec4bc, 0x77d37528)
    else if t < 40 then
      Pick(t - 32, 0x363482c9, 0xa0060b30, 0xea992a22, 0x73b33bf5,
           0x98e12507, 0xfe604df5, 0xa9a7738c, 0x65a0cfe4)
    else if t < 48 then
      Pick(t - 40, 0x41a65cb1, 0x34df1604, 0x6dc57a8a, 0x79ea687a,
           0xd6670766, 0xdf46652f, 0x17aa0dfe, 0x9d4baf93)
    else if t < 56 then
      Pick(t - 48, 0x26628815, 0x72ab4b91, 0xa14c14b0, 0x4172328d,
           0x05757ceb, 0xf11bfaa8, 0x7a0508a1, 0x886e7a22)
    else if t < 64 then
      Pick(t - 56, 0x101fd28f, 0xf5702fdb, 0x3ec45cdb, 0x38cc9913,
           0xfcd1887b, 0xc062d46f, 0xffb70472, 0xb6ae8fff)
    else
      Pick(t - 64, 0xb85e2ce9, 0x04d24d6c, 0xd39a2165, 0x506e3058,
           0x00000000, 0x00000000, 0x00000000, 0x00000000)
  }

  /** The fifth working variable, from three rounds before the start on. */
  function AbcFifth(t: nat): word
    requires t < 68
  {
    if t < 8 then
      Pick(t, 0x5be0cd19, 0x1f83d9ab, 0x9b05688c, 0x510e527f,
           0xfa2a4622, 0x78ce7989, 0xf92939eb, 0x24e00850)
    else if t < 16 then
      Pick(t - 8, 0x43ada245, 0x714260ad, 0x9b27a401, 0x0c657a79,
           0x32ca2d8c, 0x1cc92596, 0x436b23e8, 0x816fd6e9)
    else if t < 24 then
      Pick(t - 16, 0x1e578218, 0x745a48de, 0x0b92f20c, 0x07590dcd,
           0x8034229c, 0x846ee454, 0xcc899961, 0xb0638179)
    else if t < 32 then
      Pick(t - 24, 0x8ada8930, 0xe1257970, 0x49f5114a, 0xaa47c347,
           0x2823ef91, 0x14383d8e, 0xc74c6516, 0xedffbff8)
    else if t < 40 then
      Pick(t - 32, 0x6112a3b7, 0xade79437, 0x0109ab3a, 0xba591112,
           0x9cd9f5f6, 0x59249dd3, 0x085f3833, 0xf4b002d6)
    else if t < 48 then
      Pick(t - 40, 0x0772a26b, 0xa507a53d, 0xf0781bc8, 0x1efbc0a0,
           0x26352d63, 0x838b2711, 0xdecd4715, 0xfda24c2e)
    else if t < 56 then
      Pick(t - 48, 0xa80f11f0, 0xb7755da1, 0xd57b94a9, 0xfecf0bc6,
           0xbd714038, 0x6e5c390c, 0x52f1ccf7, 0x49231c1e)
    else if t < 64 then
      Pick(t - 56, 0x529e7d00, 0x9f4787c3, 0xe50e1b4f, 0x54cb266b,
           0x9b5e906c, 0x7e44008e, 0x6d83bfc6, 0xb21bad3d)
    else
      Pick(t - 64, 0x961f4894, 0x948d25b6, 0xfb121210, 0x5ef50f24,
           0x00000000, 0x00000000, 0x00000000, 0x00000000)
  }

  /** The working variables after t rounds. */
  function State(t: nat): Vars
    requires t <= 64
  {
    Vars(AbcFirst(t + 3), AbcFirst(t + 2), AbcFirst(t + 1), AbcFirst(t),
         AbcFifth(t + 3), AbcFifth(t + 2), AbcFifth(t + 1), AbcFifth(t))
  }

  predicate WordOk(t: nat)
    requires 16 <= t < 64
  {
    AbcWord(t) == Plus(Plus(Plus(SmallSigma1(AbcWord(t - 2)), AbcWord(t - 7)), SmallSigma0(AbcWord(t - 15))),
                       AbcWord(t - 16))
  }

  predicate RoundOk(t: nat)
    requires t < 64
  {
    Round(State(t), K(t), AbcWord(t)) == State(t + 1)
  }

  // The tables are checked four entries at a time, which keeps each proof small.
  lemma Words16() ensures WordOk(16) && WordOk(17) && WordOk(18) && WordOk(19) {}
  lemma Words20() ensures WordOk(20) && WordOk(21) && WordOk(22) && WordOk(23) {}
  lemma Words24() ensures WordOk(24) && WordOk(25) && WordOk(26) && WordOk(27) {}
  lemma Words28() ensures WordOk(28) && WordOk(29) && WordOk(30) && WordOk(31) {}
  lemma Words32() ensures WordOk(32) && WordOk(33) && WordOk(34) && WordOk(35) {}
  lemma Words36() ensures WordOk(36) && WordOk(37) && WordOk(38) && WordOk(39) {}
  lemma Words40() ensures WordOk(40) && WordOk(41) && WordOk(42) && WordOk(43) {}
  lemma Words44() ensures WordOk(44) && WordOk(45) && WordOk(46) && WordOk(47) {}
  lemma Words48() ensures WordOk(48) && WordOk(49) && WordOk(50) && WordOk(51) {}
  lemma Words52() ensures WordOk(52) && WordOk(53) && WordOk(54) && WordOk(55) {}
  lemma Words56() ensures WordOk(56) && WordOk(57) && WordOk(58) && WordOk(59) {}
  lemma Words60() ensures WordOk(60) && WordOk(61) && WordOk(62) && WordOk(63) {}

  lemma Rounds0() ensures RoundOk(0) && RoundOk(1) && RoundOk(2) && RoundOk(3) {}
  lemma Rounds4() ensures RoundOk(4) && RoundOk(5) && RoundOk(6) && RoundOk(7) {}
  lemma Rounds8() ensures RoundOk(8) && RoundOk(9) && RoundOk(10) && RoundOk(11) {}
  lemma Rounds12() ensures RoundOk(12) && RoundOk(13) && RoundOk(14) && RoundOk(15) {}
  lemma Rounds16() ensures RoundOk(16) && RoundOk(17) && RoundOk(18) && RoundOk(19) {}
  lemma Rounds20() ensures RoundOk(20) && RoundOk(21) && RoundOk(22) && RoundOk(23) {}
  lemma Rounds24() ensures RoundOk(24) && RoundOk(25) && RoundOk(26) && RoundOk(27) {}
  lemma Rounds28() ensures RoundOk(28) && RoundOk(29) && RoundOk(30) && RoundOk(31) {}
  lemma Rounds32() ensures RoundOk(32) && RoundOk(33) && RoundOk(34) && RoundOk(35) {}
  lemma Rounds36() ensures RoundOk(36) && RoundOk(37) && RoundOk(38) && RoundOk(39) {}
  lemma Rounds40() ensures RoundOk(40) && RoundOk(41) && RoundOk(42) && RoundOk(43) {}
  lemma Rounds44() ensures RoundOk(44) && RoundOk(45) && RoundOk(46) && RoundOk(47) {}
  lemma Rounds48() ensures RoundOk(48) && RoundOk(49) && RoundOk(50) && RoundOk(51) {}
  lemma Rounds52() ensures RoundOk(52) && RoundOk(53) && RoundOk(54) && RoundOk(55) {}
  lemma Rounds56() ensures RoundOk(56) && RoundOk(57) && RoundOk(58) && RoundOk(59) {}
  lemma Rounds60() ensures RoundOk(60) && RoundOk(61) && RoundOk(62) && RoundOk(63) {}

  lemma WordsFrom16(t: nat)
    requires 16 <= t < 40
    ensures WordOk(t)
  {
    hide *;
    match t / 4
    case 4 => Words16(); case 5 => Words20(); case 6 => Words24(); case 7 => Words28();
    case 8 => Words32(); case _ => Words36();
  }

  lemma WordsFrom40(t: nat)
    requires 40 <= t < 64
    ensures WordOk(t)
  {
    hide *;
    match t / 4
    case 10 => Words40(); case 11 => Words44(); case 12 => Words48(); case 13 => Words52();
    case 14 => Words56(); case _ => Words60();
  }

  lemma WordsOk(t: nat)
    requires 16 <= t < 64
    ensures WordOk(t)
  {
    hide *;
    if t < 40 {
      WordsFrom16(t);
    } else {
      WordsFrom40(t);
    }
  }

  lemma RoundsFrom0(t: nat)
    requires 0 <= t < 16
    ensures RoundOk(t)
  {
    hide *;
    match t / 4
    case 0 => Rounds0(); case 1 => Rounds4(); case 2 => Rounds8(); case _ => Rounds12();
  }

  lemma RoundsFrom16(t: nat)
    requires 16 <= t < 32
    ensures RoundOk(t)
  {
    hide *;
    match t / 4
    case 4 => Rounds16(); case 5 => Rounds20(); case 6 => Rounds24(); case _ => Rounds28();
  }

  lemma RoundsFrom32(t: nat)
    requires 32 <= t < 48
    ensures RoundOk(t)
  {
    hide *;
    match t / 4
    case 8 => Rounds32(); case 9 => Rounds36(); case 10 => Rounds40(); case _ => Rounds44();
  }

  lemma RoundsFrom48(t: nat)
    requires 48 <= t < 64
    ensures RoundOk(t)
  {
    hide *;
    match t / 4
    case 12 => Rounds48(); case 13 => Rounds52(); case 14 => Rounds56(); case _ => Rounds60();
  }

  lemma RoundsOk(t: nat)
    requires 0 <= t < 64
    ensures RoundOk(t)
  {
    hide *;
    if t < 16 {
      RoundsFrom0(t);
    } else if t < 32 {
      RoundsFrom16(t);
    } else if t < 48 {
      RoundsFrom32(t);
    } else {
      RoundsFrom48(t);
    }
  }

  /** "abc", the bit 1, zeros and the length of 24 bits. */
  function Block(): (r: seq<byte>)
    ensures |r| == 64
  {
    [0x61, 0x62, 0x63, 0x80] + Zeros(59) + [24]
  }

  lemma PaddedAbc()
    ensures Pad([0x61, 0x62, 0x63]) == Block()
  {
    assert BigEndian(24, 8) == Zeros(7) + [24] by {
      BigEndianSmall(24, 7);
    }
    assert Zeros((119 - 3) % 64) + Zeros(7) == Zeros(59);
  }

  lemma {:induction false} BigEndianZero(k: nat)
    ensures BigEndian(0, k) == Zeros(k)
  {
    if k > 0 {
      BigEndianZero(k - 1);
    }
  }

  lemma BigEndianSmall(n: nat, k: nat)
    requires n < 256
    ensures BigEndian(n, k + 1) == Zeros(k) + [n as byte]
  {
    BigEndianZero(k);
  }

  lemma FirstWords()
    ensures forall t :: 0 <= t < 16 ==> Schedule(Block(), t) == AbcWord(t)
  {
    var b := Block();
    assert b[0] == 0x61 && b[1] == 0x62 && b[2] == 0x63 && b[3] == 0x80 && b[63] == 24;
    assert forall i :: 4 <= i < 63 ==> b[i] == 0;
    assert WordOf(0x61, 0x62, 0x63, 0x80) == AbcWord(0) && WordOf(0, 0, 0, 24) == AbcWord(15);
    assert WordOf(0, 0, 0, 0) == 0;
    hide AbcWord, WordOf;
    forall t | 1 <= t < 15
      ensures AbcWord(t) == 0
    {
      ZeroWord(t);
    }
  }

  lemma ZeroWord(t: nat)
    requires 1 <= t < 15
    ensures AbcWord(t) == 0
  {
  }

  lemma {:induction false} ScheduleIs(t: nat)
    requires t < 64
    ensures Schedule(Block(), t) == AbcWord(t)
  {
    hide AbcWord, Block, SmallSigma0, SmallSigma1, Plus, WordOf;
    if t < 16 {
      FirstWords();
    } else {
      ScheduleIs(t - 2);
      ScheduleIs(t - 7);
      ScheduleIs(t - 15);
      ScheduleIs(t - 16);
      WordsOk(t);
    }
  }

  lemma {:induction false} RoundsAre(t: nat)
    requires t <= 64
    ensures Rounds(State(0), Block(), t) == State(t)
  {
    hide State, Block, Round, K, AbcWord, Schedule;
    if t > 0 {
      RoundsAre(t - 1);
      ScheduleIs(t - 1);
      RoundsOk(t - 1);
    }
  }

  // ---------- the digest ----------

  lemma StartIsInitial()
    ensures Load(H0()) == State(0)
  {
  }

  function Out(): (r: seq<word>)
    ensures |r| == 8
  {
    [0xba7816bf, 0x8f01cfea, 0x414140de, 0x5dae2223, 0xb00361a3, 0x96177a9c, 0xb410ff61, 0xf20015ad]
  }

  lemma LastState()
    ensures AddVars(H0(), State(64)) == Out()
  {
    var v := State(64);
    assert v == Vars(AbcFirst(67), AbcFirst(66), AbcFirst(65), AbcFirst(64),
                     AbcFifth(67), AbcFifth(66), AbcFifth(65), AbcFifth(64));
    assert Plus(0x6a09e667, AbcFirst(67)) == 0xba7816bf && Plus(0xbb67ae85, AbcFirst(66)) == 0x8f01cfea;
    assert Plus(0x3c6ef372, AbcFirst(65)) == 0x414140de && Plus(0xa54ff53a, AbcFirst(64)) == 0x5dae2223;
    assert Plus(0x510e527f, AbcFifth(67)) == 0xb00361a3 && Plus(0x9b05688c, AbcFifth(66)) == 0x96177a9c;
    assert Plus(0x1f83d9ab, AbcFifth(65)) == 0xb410ff61 && Plus(0x5be0cd19, AbcFifth(64)) == 0xf20015ad;
    hide AbcFirst, AbcFifth, State;
  }

  lemma CompressedAbc()
    ensures Blocks(H0(), Block()) == Out()
  {
    hide Rounds, State, AddVars, Block, H0, Out, Load;
    StartIsInitial();
    RoundsAre(64);
    LastState();
    assert Block()[..64] == Block() && Block()[64..] == [];
    NoBlocks(Compress(H0(), Block()));
  }

  lemma NoBlocks(s: seq<word>)
    requires |s| == 8
    ensures Blocks(s, []) == s
  {
  }

  /** The byte survives the way through eight bits; checked for literal bytes, where it is quick. */
  predicate Survives(b: byte) { b as bv8 as byte == b }

  lemma OctetsOfWord(b0: byte, b1: byte, b2: byte, b3: byte)
    ensures var w := WordOf(b0, b1, b2, b3);
            Octet(w, 0) == b0 as bv8 && Octet(w, 1) == b1 as bv8 && Octet(w, 2) == b2 as bv8 && Octet(w, 3) == b3 as bv8
  {
  }

  function Bytes4(w: word): (r: seq<byte>)
    ensures |r| == 4
  {
    [WordByte(w, 0), WordByte(w, 1), WordByte(w, 2), WordByte(w, 3)]
  }

  /** A word gives back the bytes it is made of. */
  lemma WordGivesBytes(b0: byte, b1: byte, b2: byte, b3: byte)
    requires Survives(b0) && Survives(b1) && Survives(b2) && Survives(b3)
    ensures Bytes4(WordOf(b0, b1, b2, b3)) == [b0, b1, b2, b3]
  {
    OctetsOfWord(b0, b1, b2, b3);
    hide WordOf, Octet;
  }

  lemma {:induction false} HexConcat(a: seq<byte>, b: seq<byte>)
    ensures Hex(a + b) == Hex(a) + Hex(b)
  {
    hide HexDigit;
    if b == [] {
      assert a + b == a;
    } else {
      var n := |b| - 1;
      assert (a + b)[..|a + b| - 1] == a + b[..n];
      HexConcat(a, b[..n]);
    }
  }

  lemma HexOne(b: byte)
    ensures Hex([b]) == [HexDigit(b as nat / 16), HexDigit(b as nat % 16)]
  {
    hide HexDigit;
    assert [b][..0] == [];
  }

  lemma HexFour(b0: byte, b1: byte, b2: byte, b3: byte)
    ensures Hex([b0, b1, b2, b3]) ==
            [HexDigit(b0 as nat / 16), HexDigit(b0 as nat % 16), HexDigit(b1 as nat / 16), HexDigit(b1 as nat % 16),
             HexDigit(b2 as nat / 16), HexDigit(b2 as nat % 16), HexDigit(b3 as nat / 16), HexDigit(b3 as nat % 16)]
  {
    hide HexDigit, Hex;
    HexOne(b0);
    HexOne(b1);
    HexOne(b2);
    HexOne(b3);
    HexConcat([b0], [b1]);
    HexConcat([b0] + [b1], [b2]);
    HexConcat([b0] + [b1] + [b2], [b3]);
    assert [b0, b1, b2, b3] == [b0] + [b1] + [b2] + [b3];
  }

  lemma HexWord(b0: byte, b1: byte, b2: byte, b3: byte, w: word)
    requires WordOf(b0, b1, b2, b3) == w && Survives(b0) && Survives(b1) && Survives(b2) && Survives(b3)
    ensures Hex(Bytes4(w)) ==
            [HexDigit(b0 as nat / 16), HexDigit(b0 as nat % 16), HexDigit(b1 as nat / 16), HexDigit(b1 as nat % 16),
             HexDigit(b2 as nat / 16), HexDigit(b2 as nat % 16), HexDigit(b3 as nat / 16), HexDigit(b3 as nat % 16)]
  {
    WordGivesBytes(b0, b1, b2, b3);
    HexFour(b0, b1, b2, b3);
    hide HexDigit, Hex, WordOf, Bytes4;
  }

  lemma Hex0() ensures Hex(Bytes4(0xba7816bf)) == "ba7816bf" { HexWord(0xba, 0x78, 0x16, 0xbf, 0xba7816bf); }
  lemma Hex1() ensures Hex(Bytes4(0x8f01cfea)) == "8f01cfea" { HexWord(0x8f, 0x01, 0xcf, 0xea, 0x8f01cfea); }
  lemma Hex2() ensures Hex(Bytes4(0x414140de)) == "414140de" { HexWord(0x41, 0x41, 0x40, 0xde, 0x414140de); }
  lemma Hex3() ensures Hex(Bytes4(0x5dae2223)) == "5dae2223" { HexWord(0x5d, 0xae, 0x22, 0x23, 0x5dae2223); }
  lemma Hex4() ensures Hex(Bytes4(0xb00361a3)) == "b00361a3" { HexWord(0xb0, 0x03, 0x61, 0xa3, 0xb00361a3); }
  lemma Hex5() ensures Hex(Bytes4(0x96177a9c)) == "96177a9c" { HexWord(0x96, 0x17, 0x7a, 0x9c, 0x96177a9c); }
  lemma Hex6() ensures Hex(Bytes4(0xb410ff61)) == "b410ff61" { HexWord(0xb4, 0x10, 0xff, 0x61, 0xb410ff61); }
  lemma Hex7() ensures Hex(Bytes4(0xf20015ad)) == "f20015ad" { HexWord(0xf2, 0x00, 0x15, 0xad, 0xf20015ad); }

  lemma StateSlice(s: seq<word>, i: nat)
    requires |s| == 8 && i < 8
    ensures StateBytes(s)[4 * i..4 * i + 4] == Bytes4(s[i])
  {
    hide WordByte;
    assert (4 * i) / 4 == (4 * i + 1) / 4 == (4 * i + 2) / 4 == (4 * i + 3) / 4 == i;
  }

  lemma SlicesJoin(r: seq<byte>)
    requires |r| == 32
    ensures r == r[0..4] + r[4..8] + r[8..12] + r[12..16] + (r[16..20] + r[20..24] + r[24..28] + r[28..32])
  {
    assert r[0..4] + r[4..8] + r[8..12] + r[12..16] == r[..16];
    assert r[16..20] + r[20..24] + r[24..28] + r[28..32] == r[16..];
  }

  /** The bytes of a state are those of its words. */
  lemma StateWords(s: seq<word>)
    requires |s| == 8
    ensures StateBytes(s) == Bytes4(s[0]) + Bytes4(s[1]) + Bytes4(s[2]) + Bytes4(s[3])
                             + (Bytes4(s[4]) + Bytes4(s[5]) + Bytes4(s[6]) + Bytes4(s[7]))
  {
    hide StateBytes, Bytes4;
    StateSlice(s, 0);
    StateSlice(s, 1);
    StateSlice(s, 2);
    StateSlice(s, 3);
    StateSlice(s, 4);
    StateSlice(s, 5);
    StateSlice(s, 6);
    StateSlice(s, 7);
    SlicesJoin(StateBytes(s));
  }

  lemma HexWords(a: seq<byte>, b: seq<byte>, c: seq<byte>, d: seq<byte>)
    ensures Hex(a + b + c + d) == Hex(a) + Hex(b) + Hex(c) + Hex(d)
  {
    hide Hex;
    HexConcat(a, b);
    HexConcat(a + b, c);
    HexConcat(a + b + c, d);
  }

  lemma OutWords()
    ensures var s := Out();
            && s[0] == 0xba7816bf && s[1] == 0x8f01cfea && s[2] == 0x414140de && s[3] == 0x5dae2223
            && s[4] == 0xb00361a3 && s[5] == 0x96177a9c && s[6] == 0xb410ff61 && s[7] == 0xf20015ad
  {
  }

  lemma HexOfOut()
    ensures Hex(StateBytes(Out())) == "ba7816bf" + "8f01cfea" + "414140de" + "5dae2223"
                                      + ("b00361a3" + "96177a9c" + "b410ff61" + "f20015ad")
  {
    OutWords();
    hide Hex, Bytes4, Out, StateBytes;
    var s := Out();
    StateWords(s);
    HexWords(Bytes4(s[0]), Bytes4(s[1]), Bytes4(s[2]), Bytes4(s[3]));
    HexWords(Bytes4(s[4]), Bytes4(s[5]), Bytes4(s[6]), Bytes4(s[7]));
    HexConcat(Bytes4(s[0]) + Bytes4(s[1]) + Bytes4(s[2]) + Bytes4(s[3]),
              Bytes4(s[4]) + Bytes4(s[5]) + Bytes4(s[6]) + Bytes4(s[7]));
    Hex0(); Hex1(); Hex2(); Hex3(); Hex4(); Hex5(); Hex6(); Hex7();
  }

  lemma BytesOfAbc()
    ensures Bytes("abc") == [0x61, 0x62, 0x63]
  {
  }

  /** SHA-256 of "abc" is the digest the standard publishes, written here in two halves of four words. */
  lemma DigestOfAbc()
    ensures HexDigest(Bytes("abc")) == "ba7816bf" + "8f01cfea" + "414140de" + "5dae2223"
                                       + ("b00361a3" + "96177a9c" + "b410ff61" + "f20015ad")
  {
    BytesOfAbc();
    PaddedAbc();
    CompressedAbc();
    HexOfOut();
    hide Pad, Blocks, H0, Out, Hex, StateBytes, Bytes;
  }
}
