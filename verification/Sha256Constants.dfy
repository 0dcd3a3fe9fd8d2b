/** The numeric constants of hash.c, checked against where FIPS 180-4 takes them from. */
module Sha256Constants {
  import opened Sha256

  /** w is the first 32 bits of the fractional part of the cube root of p (section 4.2.2). */
  predicate IsCubeRootWord(p: nat, w: nat) {
    var whole := if p < 8 then 1 else if p < 27 then 2 else if p < 64 then 3 else if p < 125 then 4
                 else if p < 216 then 5 else 6;
    var r := whole * 0x1_0000_0000 + w;
    r * r * r <= p * 0x1_0000_0000_0000_0000_0000_0000 < (r + 1) * (r + 1) * (r + 1)
  }

  /** w is the first 32 bits of the fractional part of the square root of p (section 5.3.3). */
  predicate IsSquareRootWord(p: nat, w: nat) {
    var whole := if p < 4 then 1 else if p < 9 then 2 else if p < 16 then 3 else 4;
    var r := whole * 0x1_0000_0000 + w;
    r * r <= p * 0x1_0000_0000_0000_0000 < (r + 1) * (r + 1)
  }

  /** The first 64 primes. */
  function Prime(t: nat): nat
    requires t < 64
  {
    match t
    case 0 => 2 case 1 => 3 case 2 => 5 case 3 => 7 case 4 => 11 case 5 => 13 case 6 => 17 case 7 => 19
    case 8 => 23 case 9 => 29 case 10 => 31 case 11 => 37 case 12 => 41 case 13 => 43 case 14 => 47 case 15 => 53
    case 16 => 59 case 17 => 61 case 18 => 67 case 19 => 71 case 20 => 73 case 21 => 79 case 22 => 83 case 23 => 89
    case 24 => 97 case 25 => 101 case 26 => 103 case 27 => 107
    case 28 => 109 case 29 => 113 case 30 => 127 case 31 => 131
    case 32 => 137 case 33 => 139 case 34 => 149 case 35 => 151
    case 36 => 157 case 37 => 163 case 38 => 167 case 39 => 173
    case 40 => 179 case 41 => 181 case 42 => 191 case 43 => 193
    case 44 => 197 case 45 => 199 case 46 => 211 case 47 => 223
    case 48 => 227 case 49 => 229 case 50 => 233 case 51 => 239
    case 52 => 241 case 53 => 251 case 54 => 257 case 55 => 263
    case 56 => 269 case 57 => 271 case 58 => 277 case 59 => 281
    case 60 => 283 case 61 => 293 case 62 => 307 case _ => 311
  }

  predicate CubeRootAt(t: nat)
    requires t < 64
  {
    IsCubeRootWord(Prime(t), K(t) as nat)
  }

  // The constants are checked two at a time, which keeps each proof small.
  lemma CubeRoots0() ensures CubeRootAt(0) && CubeRootAt(1) {}
  lemma CubeRoots2() ensures CubeRootAt(2) && CubeRootAt(3) {}
  lemma CubeRoots4() ensures CubeRootAt(4) && CubeRootAt(5) {}
  lemma CubeRoots6() ensures CubeRootAt(6) && CubeRootAt(7) {}
  lemma CubeRoots8() ensures CubeRootAt(8) && CubeRootAt(9) {}
  lemma CubeRoots10() ensures CubeRootAt(10) && CubeRootAt(11) {}
  lemma CubeRoots12() ensures CubeRootAt(12) && CubeRootAt(13) {}
  lemma CubeRoots14() ensures CubeRootAt(14) && CubeRootAt(15) {}
  lemma CubeRoots16() ensures CubeRootAt(16) && CubeRootAt(17) {}
  lemma CubeRoots18() ensures CubeRootAt(18) && CubeRootAt(19) {}
  lemma CubeRoots20() ensures CubeRootAt(20) && CubeRootAt(21) {}
  lemma CubeRoots22() ensures CubeRootAt(22) && CubeRootAt(23) {}
  lemma CubeRoots24() ensures CubeRootAt(24) && CubeRootAt(25) {}
  lemma CubeRoots26() ensures CubeRootAt(26) && CubeRootAt(27) {}
  lemma CubeRoots28() ensures CubeRootAt(28) && CubeRootAt(29) {}
  lemma CubeRoots30() ensures CubeRootAt(30) && CubeRootAt(31) {}
  lemma CubeRoots32() ensures CubeRootAt(32) && CubeRootAt(33) {}
  lemma CubeRoots34() ensures CubeRootAt(34) && CubeRootAt(35) {}
  lemma CubeRoots36() ensures CubeRootAt(36) && CubeRootAt(37) {}
  lemma CubeRoots38() ensures CubeRootAt(38) && CubeRootAt(39) {}
  lemma CubeRoots40() ensures CubeRootAt(40) && CubeRootAt(41) {}
  lemma CubeRoots42() ensures CubeRootAt(42) && CubeRootAt(43) {}
  lemma CubeRoots44() ensures CubeRootAt(44) && CubeRootAt(45) {}
  lemma CubeRoots46() ensures CubeRootAt(46) && CubeRootAt(47) {}
  lemma CubeRoots48() ensures CubeRootAt(48) && CubeRootAt(49) {}
  lemma CubeRoots50() ensures CubeRootAt(50) && CubeRootAt(51) {}
  lemma CubeRoots52() ensures CubeRootAt(52) && CubeRootAt(53) {}
  lemma CubeRoots54() ensures CubeRootAt(54) && CubeRootAt(55) {}
  lemma CubeRoots56() ensures CubeRootAt(56) && CubeRootAt(57) {}
  lemma CubeRoots58() ensures CubeRootAt(58) && CubeRootAt(59) {}
  lemma CubeRoots60() ensures CubeRootAt(60) && CubeRootAt(61) {}
  lemma CubeRoots62() ensures CubeRootAt(62) && CubeRootAt(63) {}

  /** Every entry of the table k is the one section 4.2.2 of FIPS 180-4 gives. */
  lemma RoundConstants(t: nat)
    requires t < 64
    ensures CubeRootAt(t)
  {
    hide *;
    match t / 2
    case 0 => CubeRoots0(); case 1 => CubeRoots2(); case 2 => CubeRoots4(); case 3 => CubeRoots6();
    case 4 => CubeRoots8(); case 5 => CubeRoots10(); case 6 => CubeRoots12(); case 7 => CubeRoots14();
    case 8 => CubeRoots16(); case 9 => CubeRoots18(); case 10 => CubeRoots20(); case 11 => CubeRoots22();
    case 12 => CubeRoots24(); case 13 => CubeRoots26(); case 14 => CubeRoots28(); case 15 => CubeRoots30();
    case 16 => CubeRoots32(); case 17 => CubeRoots34(); case 18 => CubeRoots36(); case 19 => CubeRoots38();
    case 20 => CubeRoots40(); case 21 => CubeRoots42(); case 22 => CubeRoots44(); case 23 => CubeRoots46();
    case 24 => CubeRoots48(); case 25 => CubeRoots50(); case 26 => CubeRoots52(); case 27 => CubeRoots54();
    case 28 => CubeRoots56(); case 29 => CubeRoots58(); case 30 => CubeRoots60(); case _ => CubeRoots62();
  }

  predicate SquareRootAt(t: nat)
    requires t < 8
  {
    IsSquareRootWord(Prime(t), H0()[t] as nat)
  }

  lemma SquareRoots0() ensures SquareRootAt(0) && SquareRootAt(1) {}
  lemma SquareRoots2() ensures SquareRootAt(2) && SquareRootAt(3) {}
  lemma SquareRoots4() ensures SquareRootAt(4) && SquareRootAt(5) {}
  lemma SquareRoots6() ensures SquareRootAt(6) && SquareRootAt(7) {}

  /** Every initial word is the one section 5.3.3 of FIPS 180-4 gives. */
  lemma InitialState(t: nat)
    requires t < 8
    ensures SquareRootAt(t)
  {
    hide *;
    match t / 2
    case 0 => SquareRoots0(); case 1 => SquareRoots2(); case 2 => SquareRoots4(); case _ => SquareRoots6();
  }
}
