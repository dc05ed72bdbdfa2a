/** The words SHA-256 computes on, and its constants checked against the definitions that
    FIPS 180-4 gives for them. */
module Fips180Constants {
  type Byte = x: nat | x < 256
  type Word = x: nat | x < 0x1_0000_0000

  // ---- Section 3.2: operations on words, which are those of 32-bit vectors. Addition of vectors is
  // ---- modulo 2^32; the rest work bit by bit.

  function ToBits(x: Word): bv32 { x as bv32 }
  function OfBits(b: bv32): Word { b as nat }

  function Add(x: Word, y: Word): Word { OfBits(ToBits(x) + ToBits(y)) }
  function Xor(x: Word, y: Word): Word { OfBits(ToBits(x) ^ ToBits(y)) }
  function And(x: Word, y: Word): Word { OfBits(ToBits(x) & ToBits(y)) }
  function Not(x: Word): Word { OfBits(!ToBits(x)) }

  function ShiftRight(x: Word, n: bv32): Word
    requires n < 32
  {
    OfBits(ToBits(x) >> n)
  }

  function RotateRight(x: Word, n: bv32): Word
    requires 0 < n < 32
  {
    OfBits((ToBits(x) >> n) | (ToBits(x) << (32 - n)))
  }

  /** The eight working variables, and equally the eight words of a hash value. */
  datatype State = State(a: Word, b: Word, c: Word, d: Word, e: Word, f: Word, g: Word, h: Word)

  /** Section 4.2.2: the first 64 prime numbers (`Primes.dfy` proves that they are), whose cube roots
      give the round constants. */
  function Prime(t: nat): nat
    requires t < 64
  {
    match t / 8
    case 0 => [2, 3, 5, 7, 11, 13, 17, 19][t % 8]
    case 1 => [23, 29, 31, 37, 41, 43, 47, 53][t % 8]
    case 2 => [59, 61, 67, 71, 73, 79, 83, 89][t % 8]
    case 3 => [97, 101, 103, 107, 109, 113, 127, 131][t % 8]
    case 4 => [137, 139, 149, 151, 157, 163, 167, 173][t % 8]
    case 5 => [179, 181, 191, 193, 197, 199, 211, 223][t % 8]
    case 6 => [227, 229, 233, 239, 241, 251, 257, 263][t % 8]
    case _ => [269, 271, 277, 281, 283, 293, 307, 311][t % 8]
  }

  /** Section 4.2.2: the round constants. */
  function K(t: nat): Word
    requires t < 64
  {
    match t / 8
    case 0 => [0x428a2f98, 0x71374491, 0xb5c0fbcf, 0xe9b5dba5, 0x3956c25b, 0x59f111f1, 0x923f82a4, 0xab1c5ed5][t % 8]
    case 1 => [0xd807aa98, 0x12835b01, 0x243185be, 0x550c7dc3, 0x72be5d74, 0x80deb1fe, 0x9bdc06a7, 0xc19bf174][t % 8]
    case 2 => [0xe49b69c1, 0xefbe4786, 0x0fc19dc6, 0x240ca1cc, 0x2de92c6f, 0x4a7484aa, 0x5cb0a9dc, 0x76f988da][t % 8]
    case 3 => [0x983e5152, 0xa831c66d, 0xb00327c8, 0xbf597fc7, 0xc6e00bf3, 0xd5a79147, 0x06ca6351, 0x14292967][t % 8]
    case 4 => [0x27b70a85, 0x2e1b2138, 0x4d2c6dfc, 0x53380d13, 0x650a7354, 0x766a0abb, 0x81c2c92e, 0x92722c85][t % 8]
    case 5 => [0xa2bfe8a1, 0xa81a664b, 0xc24b8b70, 0xc76c51a3, 0xd192e819, 0xd6990624, 0xf40e3585, 0x106aa070][t % 8]
    case 6 => [0x19a4c116, 0x1e376c08, 0x2748774c, 0x34b0bcb5, 0x391c0cb3, 0x4ed8aa4a, 0x5b9cca4f, 0x682e6ff3][t % 8]
    case _ => [0x748f82ee, 0x78a5636f, 0x84c87814, 0x8cc70208, 0x90befffa, 0xa4506ceb, 0xbef9a3f7, 0xc67178f2][t % 8]
  }

  const H0 := State(0x6a09e667, 0xbb67ae85, 0x3c6ef372, 0xa54ff53a,
                    0x510e527f, 0x9b05688c, 0x1f83d9ab, 0x5be0cd19)

  /** `n` is the cube root of `p` times 2^32, rounded down. */
  ghost predicate ScaledCubeRoot(p: nat, n: nat) {
    n * n * n <= p * 0x1_00000000_00000000_00000000 < (n + 1) * (n + 1) * (n + 1)
  }

  ghost predicate ScaledSquareRoot(p: nat, n: nat) {
    n * n <= p * 0x1_00000000_00000000 < (n + 1) * (n + 1)
  }

  /** Section 4.2.2: `K(t)` is the first 32 bits of the fractional part of the cube root of prime `t`. */
  ghost predicate IsRoundConstant(t: nat)
    requires t < 64
  {
    exists n: nat :: ScaledCubeRoot(Prime(t), n) && n % 0x1_00000000 == K(t)
  }

  /** Section 5.3.3: `h` is the first 32 bits of the fractional part of the square root of `p`. */
  ghost predicate IsInitialWord(p: nat, h: Word) {
    exists n: nat :: ScaledSquareRoot(p, n) && n % 0x1_00000000 == h
  }

  /** One entry of the table of round constants, with its root as a literal. */
  lemma At(t: nat, p: nat, n: nat)
    requires t < 64
    ensures Prime(t) == p && K(t) == n % 0x1_00000000 && ScaledCubeRoot(p, n) ==> IsRoundConstant(t)
  {
  }

  lemma FirstQuarter(t: nat)
    requires 0 <= t < 16
    ensures IsRoundConstant(t)
  {
    match t
    case 0 => At(0, 2, 0x1_428a2f98);  case 1 => At(1, 3, 0x1_71374491);
    case 2 => At(2, 5, 0x1_b5c0fbcf);  case 3 => At(3, 7, 0x1_e9b5dba5);
    case 4 => At(4, 11, 0x2_3956c25b);  case 5 => At(5, 13, 0x2_59f111f1);
    case 6 => At(6, 17, 0x2_923f82a4);  case 7 => At(7, 19, 0x2_ab1c5ed5);
    case 8 => At(8, 23, 0x2_d807aa98);  case 9 => At(9, 29, 0x3_12835b01);
    case 10 => At(10, 31, 0x3_243185be);  case 11 => At(11, 37, 0x3_550c7dc3);
    case 12 => At(12, 41, 0x3_72be5d74);  case 13 => At(13, 43, 0x3_80deb1fe);
    case 14 => At(14, 47, 0x3_9bdc06a7);  case _ => At(15, 53, 0x3_c19bf174);
  }

  lemma SecondQuarter(t: nat)
    requires 16 <= t < 32
    ensures IsRoundConstant(t)
  {
    match t
    case 16 => At(16, 59, 0x3_e49b69c1);  case 17 => At(17, 61, 0x3_efbe4786);
    case 18 => At(18, 67, 0x4_0fc19dc6);  case 19 => At(19, 71, 0x4_240ca1cc);
    case 20 => At(20, 73, 0x4_2de92c6f);  case 21 => At(21, 79, 0x4_4a7484aa);
    case 22 => At(22, 83, 0x4_5cb0a9dc);  case 23 => At(23, 89, 0x4_76f988da);
    case 24 => At(24, 97, 0x4_983e5152);  case 25 => At(25, 101, 0x4_a831c66d);
    case 26 => At(26, 103, 0x4_b00327c8);  case 27 => At(27, 107, 0x4_bf597fc7);
    case 28 => At(28, 109, 0x4_c6e00bf3);  case 29 => At(29, 113, 0x4_d5a79147);
    case 30 => At(30, 127, 0x5_06ca6351);  case _ => At(31, 131, 0x5_14292967);
  }

  lemma ThirdQuarter(t: nat)
    requires 32 <= t < 48
    ensures IsRoundConstant(t)
  {
    match t
    case 32 => At(32, 137, 0x5_27b70a85);  case 33 => At(33, 139, 0x5_2e1b2138);
    case 34 => At(34, 149, 0x5_4d2c6dfc);  case 35 => At(35, 151, 0x5_53380d13);
    case 36 => At(36, 157, 0x5_650a7354);  case 37 => At(37, 163, 0x5_766a0abb);
    case 38 => At(38, 167, 0x5_81c2c92e);  case 39 => At(39, 173, 0x5_92722c85);
    case 40 => At(40, 179, 0x5_a2bfe8a1);  case 41 => At(41, 181, 0x5_a81a664b);
    case 42 => At(42, 191, 0x5_c24b8b70);  case 43 => At(43, 193, 0x5_c76c51a3);
    case 44 => At(44, 197, 0x5_d192e819);  case 45 => At(45, 199, 0x5_d6990624);
    case 46 => At(46, 211, 0x5_f40e3585);  case _ => At(47, 223, 0x6_106aa070);
  }

  lemma LastQuarter(t: nat)
    requires 48 <= t < 64
    ensures IsRoundConstant(t)
  {
    match t
    case 48 => At(48, 227, 0x6_19a4c116);  case 49 => At(49, 229, 0x6_1e376c08);
    case 50 => At(50, 233, 0x6_2748774c);  case 51 => At(51, 239, 0x6_34b0bcb5);
    case 52 => At(52, 241, 0x6_391c0cb3);  case 53 => At(53, 251, 0x6_4ed8aa4a);
    case 54 => At(54, 257, 0x6_5b9cca4f);  case 55 => At(55, 263, 0x6_682e6ff3);
    case 56 => At(56, 269, 0x6_748f82ee);  case 57 => At(57, 271, 0x6_78a5636f);
    case 58 => At(58, 277, 0x6_84c87814);  case 59 => At(59, 281, 0x6_8cc70208);
    case 60 => At(60, 283, 0x6_90befffa);  case 61 => At(61, 293, 0x6_a4506ceb);
    case 62 => At(62, 307, 0x6_bef9a3f7);  case _ => At(63, 311, 0x6_c67178f2);
  }

  /** The table agrees with the definition of the round constants, entry by entry. */
  lemma RoundConstantsAreCubeRoots(t: nat)
    requires t < 64
    ensures IsRoundConstant(t)
  {
    if t < 16 { FirstQuarter(t); }
    else if t < 32 { SecondQuarter(t); }
    else if t < 48 { ThirdQuarter(t); }
    else { LastQuarter(t); }
  }

  lemma InitialHashIsSquareRoots()
    ensures IsInitialWord(2, H0.a) && IsInitialWord(3, H0.b) && IsInitialWord(5, H0.c) && IsInitialWord(7, H0.d)
    ensures IsInitialWord(11, H0.e) && IsInitialWord(13, H0.f) && IsInitialWord(17, H0.g) && IsInitialWord(19, H0.h)
  {
    assert ScaledSquareRoot(2, 0x1_6a09e667);
    assert ScaledSquareRoot(3, 0x1_bb67ae85);
    assert ScaledSquareRoot(5, 0x2_3c6ef372);
    assert ScaledSquareRoot(7, 0x2_a54ff53a);
    assert ScaledSquareRoot(11, 0x3_510e527f);
    assert ScaledSquareRoot(13, 0x3_9b05688c);
    assert ScaledSquareRoot(17, 0x4_1f83d9ab);
    assert ScaledSquareRoot(19, 0x4_5be0cd19);
  }
}
