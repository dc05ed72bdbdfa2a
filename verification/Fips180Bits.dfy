/** The compression function of SHA-256 on 32-bit vectors, with the schedule computed sixteen words at
    a time, proved equal to the standard's recursive definition for every state and block. It is the
    form in which published examples can be checked. */
module Fips180Bits {
  import opened Fips180Constants
  import opened Fips180

  datatype Registers = Registers(a: bv32, b: bv32, c: bv32, d: bv32, e: bv32, f: bv32, g: bv32, h: bv32)

  datatype Words = Words(
    w0: bv32, w1: bv32, w2: bv32, w3: bv32, w4: bv32, w5: bv32, w6: bv32, w7: bv32,
    w8: bv32, w9: bv32, w10: bv32, w11: bv32, w12: bv32, w13: bv32, w14: bv32, w15: bv32)

  function Bits(s: State): Registers {
    Registers(ToBits(s.a), ToBits(s.b), ToBits(s.c), ToBits(s.d), ToBits(s.e), ToBits(s.f), ToBits(s.g), ToBits(s.h))
  }

  // ---- The functions of section 4.1.2 on vectors.

  function Sum(x: bv32, y: bv32): bv32 { x + y }

  function Rotate(x: bv32, n: bv32): bv32
    requires 0 < n < 32
  {
    (x >> n) | (x << (32 - n))
  }

  function Shift(x: bv32, n: bv32): bv32
    requires n < 32
  {
    x >> n
  }

  function Parity(x: bv32, y: bv32, z: bv32): bv32 { x ^ y ^ z }
  function Choose(x: bv32, y: bv32, z: bv32): bv32 { (x & y) ^ (!x & z) }
  function Majority(x: bv32, y: bv32, z: bv32): bv32 { (x & y) ^ (x & z) ^ (y & z) }
  function Upper0(x: bv32): bv32 { Parity(Rotate(x, 2), Rotate(x, 13), Rotate(x, 22)) }
  function Upper1(x: bv32): bv32 { Parity(Rotate(x, 6), Rotate(x, 11), Rotate(x, 25)) }
  function Lower0(x: bv32): bv32 { Parity(Rotate(x, 7), Rotate(x, 18), Shift(x, 3)) }
  function Lower1(x: bv32): bv32 { Parity(Rotate(x, 17), Rotate(x, 19), Shift(x, 10)) }

  lemma Back(b: bv32)
    ensures ToBits(OfBits(b)) == b
  {
  }

  lemma AddBits(x: Word, y: Word)
    ensures ToBits(Add(x, y)) == Sum(ToBits(x), ToBits(y)) && Add(x, y) == OfBits(Sum(ToBits(x), ToBits(y)))
  {
    hide ToBits, OfBits;
    Back(ToBits(x) + ToBits(y));
  }

  lemma RotateBits(x: Word, n: bv32)
    requires 0 < n < 32
    ensures ToBits(RotateRight(x, n)) == Rotate(ToBits(x), n)
  {
    hide ToBits, OfBits;
    Back(Rotate(ToBits(x), n));
  }

  lemma ShiftBits(x: Word, n: bv32)
    requires n < 32
    ensures ToBits(ShiftRight(x, n)) == Shift(ToBits(x), n)
  {
    hide ToBits, OfBits;
    Back(Shift(ToBits(x), n));
  }

  lemma ParityBits(x: Word, y: Word, z: Word)
    ensures ToBits(Xor(Xor(x, y), z)) == Parity(ToBits(x), ToBits(y), ToBits(z))
  {
    hide ToBits, OfBits;
    Back(ToBits(x) ^ ToBits(y));
    Back(ToBits(x) ^ ToBits(y) ^ ToBits(z));
  }

  lemma XorBits(x: Word, y: Word)
    ensures ToBits(Xor(x, y)) == ToBits(x) ^ ToBits(y)
  {
    hide ToBits, OfBits;
    Back(ToBits(x) ^ ToBits(y));
  }

  lemma AndBits(x: Word, y: Word)
    ensures ToBits(And(x, y)) == ToBits(x) & ToBits(y)
  {
    hide ToBits, OfBits;
    Back(ToBits(x) & ToBits(y));
  }

  lemma NotBits(x: Word)
    ensures ToBits(Not(x)) == !ToBits(x)
  {
    hide ToBits, OfBits;
    Back(!ToBits(x));
  }

  lemma ChooseBits(x: Word, y: Word, z: Word)
    ensures ToBits(Ch(x, y, z)) == Choose(ToBits(x), ToBits(y), ToBits(z))
  {
    AndBits(x, y);
    NotBits(x);
    AndBits(Not(x), z);
    XorBits(And(x, y), And(Not(x), z));
    hide ToBits, OfBits, Xor, And, Not;
  }

  lemma MajorityBits(x: Word, y: Word, z: Word)
    ensures ToBits(Maj(x, y, z)) == Majority(ToBits(x), ToBits(y), ToBits(z))
  {
    AndBits(x, y);
    AndBits(x, z);
    AndBits(y, z);
    ParityBits(And(x, y), And(x, z), And(y, z));
    hide ToBits, OfBits, Xor, And;
  }

  lemma Upper0Bits(x: Word)
    ensures ToBits(BigSigma0(x)) == Upper0(ToBits(x))
  {
    hide ToBits, Xor, RotateRight, Rotate, Parity;
    RotateBits(x, 2);
    RotateBits(x, 13);
    RotateBits(x, 22);
    ParityBits(RotateRight(x, 2), RotateRight(x, 13), RotateRight(x, 22));
  }

  lemma Upper1Bits(x: Word)
    ensures ToBits(BigSigma1(x)) == Upper1(ToBits(x))
  {
    hide ToBits, Xor, RotateRight, Rotate, Parity;
    RotateBits(x, 6);
    RotateBits(x, 11);
    RotateBits(x, 25);
    ParityBits(RotateRight(x, 6), RotateRight(x, 11), RotateRight(x, 25));
  }

  lemma Lower0Bits(x: Word)
    ensures ToBits(SmallSigma0(x)) == Lower0(ToBits(x))
  {
    hide ToBits, Xor, RotateRight, ShiftRight, Rotate, Shift, Parity;
    RotateBits(x, 7);
    RotateBits(x, 18);
    ShiftBits(x, 3);
    ParityBits(RotateRight(x, 7), RotateRight(x, 18), ShiftRight(x, 3));
  }

  lemma Lower1Bits(x: Word)
    ensures ToBits(SmallSigma1(x)) == Lower1(ToBits(x))
  {
    hide ToBits, Xor, RotateRight, ShiftRight, Rotate, Shift, Parity;
    RotateBits(x, 17);
    RotateBits(x, 19);
    ShiftBits(x, 10);
    ParityBits(RotateRight(x, 17), RotateRight(x, 19), ShiftRight(x, 10));
  }

  // ---- The same functions written out.

  lemma RotateIs(x: bv32)
    ensures Rotate(x, 2) == (x >> 2) | (x << 30)
    ensures Rotate(x, 13) == (x >> 13) | (x << 19)
    ensures Rotate(x, 22) == (x >> 22) | (x << 10)
    ensures Rotate(x, 6) == (x >> 6) | (x << 26)
    ensures Rotate(x, 11) == (x >> 11) | (x << 21)
    ensures Rotate(x, 25) == (x >> 25) | (x << 7)
    ensures Rotate(x, 7) == (x >> 7) | (x << 25)
    ensures Rotate(x, 18) == (x >> 18) | (x << 14)
    ensures Rotate(x, 17) == (x >> 17) | (x << 15)
    ensures Rotate(x, 19) == (x >> 19) | (x << 13)
  {
  }

  lemma ShiftIs(x: bv32)
    ensures Shift(x, 3) == x >> 3 && Shift(x, 10) == x >> 10
  {
  }

  lemma Upper0Parts(x: bv32)
    ensures Parity((x >> 2) | (x << 30), (x >> 13) | (x << 19), (x >> 22) | (x << 10))
         == ((x >> 2) | (x << 30)) ^ ((x >> 13) | (x << 19)) ^ ((x >> 22) | (x << 10))
  {
  }

  lemma Upper0Is(x: bv32)
    ensures Upper0(x) == ((x >> 2) | (x << 30)) ^ ((x >> 13) | (x << 19)) ^ ((x >> 22) | (x << 10))
  {
    hide Rotate, Parity;
    RotateIs(x);
    Upper0Parts(x);
  }

  lemma Upper1Parts(x: bv32)
    ensures Parity((x >> 6) | (x << 26), (x >> 11) | (x << 21), (x >> 25) | (x << 7))
         == ((x >> 6) | (x << 26)) ^ ((x >> 11) | (x << 21)) ^ ((x >> 25) | (x << 7))
  {
  }

  lemma Upper1Is(x: bv32)
    ensures Upper1(x) == ((x >> 6) | (x << 26)) ^ ((x >> 11) | (x << 21)) ^ ((x >> 25) | (x << 7))
  {
    hide Rotate, Parity;
    RotateIs(x);
    Upper1Parts(x);
  }

  lemma Lower0Parts(x: bv32)
    ensures Parity((x >> 7) | (x << 25), (x >> 18) | (x << 14), x >> 3)
         == ((x >> 7) | (x << 25)) ^ ((x >> 18) | (x << 14)) ^ (x >> 3)
  {
  }

  lemma Lower0Is(x: bv32)
    ensures Lower0(x) == ((x >> 7) | (x << 25)) ^ ((x >> 18) | (x << 14)) ^ (x >> 3)
  {
    hide Rotate, Shift, Parity;
    RotateIs(x);
    ShiftIs(x);
    Lower0Parts(x);
  }

  lemma Lower1Parts(x: bv32)
    ensures Parity((x >> 17) | (x << 15), (x >> 19) | (x << 13), x >> 10)
         == ((x >> 17) | (x << 15)) ^ ((x >> 19) | (x << 13)) ^ (x >> 10)
  {
  }

  lemma Lower1Is(x: bv32)
    ensures Lower1(x) == ((x >> 17) | (x << 15)) ^ ((x >> 19) | (x << 13)) ^ (x >> 10)
  {
    hide Rotate, Shift, Parity;
    RotateIs(x);
    ShiftIs(x);
    Lower1Parts(x);
  }

  // ---- Sums of several.

  function Sum4(a: bv32, b: bv32, c: bv32, d: bv32): bv32 { a + b + c + d }
  function Sum5(a: bv32, b: bv32, c: bv32, d: bv32, e: bv32): bv32 { a + b + c + d + e }
  function Sum6(f: bv32, a: bv32, b: bv32, c: bv32, d: bv32, e: bv32): bv32 { f + (a + b + c + d + e) }

  function Sum7(a: bv32, b: bv32, c: bv32, d: bv32, e: bv32, f: bv32, g: bv32): bv32 {
    (a + b + c + d + e) + (f + g)
  }

  lemma SumParts(a: bv32, b: bv32, c: bv32, d: bv32, e: bv32)
    ensures Sum(a + b, c) == a + b + c && Sum(a + b + c, d) == a + b + c + d
    ensures Sum(a + b + c + d, e) == a + b + c + d + e
  {
  }

  lemma SumOf(x: bv32, y: bv32)
    ensures Sum(x, y) == x + y
  {
  }

  lemma ThirdTerm(a: bv32, b: bv32, c: bv32, x: bv32)
    requires x == a + b
    ensures Sum(x, c) == a + b + c
  {
    SumParts(a, b, c, 0, 0);
    hide Sum;
  }

  lemma LastTwoTerms(a: bv32, b: bv32, c: bv32)
    ensures Sum(a, b + c) == a + b + c
  {
  }

  lemma SumAssociates(a: bv32, b: bv32, c: bv32)
    ensures Sum(Sum(a, b), c) == Sum(a, Sum(b, c))
  {
    SumOf(a, b);
    SumOf(b, c);
    ThirdTerm(a, b, c, Sum(a, b));
    LastTwoTerms(a, b, c);
    hide Sum;
  }

  lemma FourthTerm(a: bv32, b: bv32, c: bv32, d: bv32, x: bv32)
    requires x == a + b + c
    ensures Sum(x, d) == a + b + c + d
  {
    SumParts(a, b, c, d, 0);
    hide Sum;
  }

  lemma FifthTerm(a: bv32, b: bv32, c: bv32, d: bv32, e: bv32, x: bv32)
    requires x == a + b + c + d
    ensures Sum(x, e) == a + b + c + d + e
  {
    SumParts(a, b, c, d, e);
    hide Sum;
  }

  lemma SumOfFour(a: bv32, b: bv32, c: bv32, d: bv32)
    ensures Sum(Sum(Sum(a, b), c), d) == a + b + c + d
  {
    hide Sum;
    var x, y := Sum(a, b), Sum(Sum(a, b), c);
    SumOf(a, b);
    ThirdTerm(a, b, c, x);
    FourthTerm(a, b, c, d, y);
  }

  lemma SumOfFive(a: bv32, b: bv32, c: bv32, d: bv32, e: bv32)
    ensures Sum(Sum(Sum(Sum(a, b), c), d), e) == a + b + c + d + e
  {
    hide Sum;
    var x := Sum(Sum(Sum(a, b), c), d);
    SumOfFour(a, b, c, d);
    FifthTerm(a, b, c, d, e, x);
  }

  lemma SumsAre(a: bv32, b: bv32, c: bv32, d: bv32, e: bv32)
    ensures Sum(Sum(Sum(a, b), c), d) == Sum4(a, b, c, d)
    ensures Sum(Sum(Sum(Sum(a, b), c), d), e) == Sum5(a, b, c, d, e)
  {
    hide Sum;
    SumOfFour(a, b, c, d);
    SumOfFive(a, b, c, d, e);
  }

  lemma SumOfSumsParts(a: bv32, b: bv32, c: bv32, d: bv32, e: bv32, f: bv32, g: bv32)
    ensures Sum(f, a + b + c + d + e) == f + (a + b + c + d + e)
    ensures Sum(a + b + c + d + e, f + g) == (a + b + c + d + e) + (f + g)
  {
  }

  lemma SumOfSums(a: bv32, b: bv32, c: bv32, d: bv32, e: bv32, f: bv32, g: bv32)
    ensures Sum(f, Sum5(a, b, c, d, e)) == Sum6(f, a, b, c, d, e)
    ensures Sum(Sum5(a, b, c, d, e), Sum(f, g)) == Sum7(a, b, c, d, e, f, g)
  {
    SumOfSumsParts(a, b, c, d, e, f, g);
    SumOf(f, g);
    hide Sum;
  }

  // ---- One round.

  /** The new first and fifth variable, written out. */
  function NextA(a: bv32, b: bv32, c: bv32, e: bv32, f: bv32, g: bv32, h: bv32, k: bv32, w: bv32): bv32 {
    (h + (((e >> 6) | (e << 26)) ^ ((e >> 11) | (e << 21)) ^ ((e >> 25) | (e << 7))) + ((e & f) ^ (!e & g)) + k + w)
    + ((((a >> 2) | (a << 30)) ^ ((a >> 13) | (a << 19)) ^ ((a >> 22) | (a << 10)))
       + ((a & b) ^ (a & c) ^ (b & c)))
  }

  function NextE(d: bv32, e: bv32, f: bv32, g: bv32, h: bv32, k: bv32, w: bv32): bv32 {
    d + (h + (((e >> 6) | (e << 26)) ^ ((e >> 11) | (e << 21)) ^ ((e >> 25) | (e << 7))) + ((e & f) ^ (!e & g)) + k + w)
  }

  lemma NextAParts(a: bv32, b: bv32, c: bv32, e: bv32, f: bv32, g: bv32, h: bv32, k: bv32, w: bv32)
    ensures NextA(a, b, c, e, f, g, h, k, w)
         == Sum7(h, ((e >> 6) | (e << 26)) ^ ((e >> 11) | (e << 21)) ^ ((e >> 25) | (e << 7)),
                 (e & f) ^ (!e & g), k, w,
                 ((a >> 2) | (a << 30)) ^ ((a >> 13) | (a << 19)) ^ ((a >> 22) | (a << 10)),
                 (a & b) ^ (a & c) ^ (b & c))
  {
  }

  lemma NextEParts(d: bv32, e: bv32, f: bv32, g: bv32, h: bv32, k: bv32, w: bv32)
    ensures NextE(d, e, f, g, h, k, w)
         == Sum6(d, h, ((e >> 6) | (e << 26)) ^ ((e >> 11) | (e << 21)) ^ ((e >> 25) | (e << 7)),
                 (e & f) ^ (!e & g), k, w)
  {
  }

  lemma NextAIs(a: bv32, b: bv32, c: bv32, e: bv32, f: bv32, g: bv32, h: bv32, k: bv32, w: bv32)
    ensures NextA(a, b, c, e, f, g, h, k, w)
         == Sum7(h, Upper1(e), Choose(e, f, g), k, w, Upper0(a), Majority(a, b, c))
  {
    hide NextA, Sum7, Upper0, Upper1;
    NextAParts(a, b, c, e, f, g, h, k, w);
    Upper0Is(a);
    Upper1Is(e);
  }

  lemma NextEIs(d: bv32, e: bv32, f: bv32, g: bv32, h: bv32, k: bv32, w: bv32)
    ensures NextE(d, e, f, g, h, k, w) == Sum6(d, h, Upper1(e), Choose(e, f, g), k, w)
  {
    hide NextE, Sum6, Upper1;
    NextEParts(d, e, f, g, h, k, w);
    Upper1Is(e);
  }

  function RoundOf(s: Registers, k: bv32, w: bv32): Registers {
    Registers(NextA(s.a, s.b, s.c, s.e, s.f, s.g, s.h, k, w), s.a, s.b, s.c,
              NextE(s.d, s.e, s.f, s.g, s.h, k, w), s.e, s.f, s.g)
  }

  lemma RoundBits(s: State, k: Word, w: Word)
    ensures Bits(Round(s, k, w)) == RoundOf(Bits(s), ToBits(k), ToBits(w))
  {
    hide ToBits, Add, BigSigma0, BigSigma1, Ch, Maj, Upper0, Upper1, Choose, Majority, NextA, NextE;
    hide Sum, Sum4, Sum5, Sum6, Sum7;
    Upper1Bits(s.e);
    ChooseBits(s.e, s.f, s.g);
    var t := Add(s.h, BigSigma1(s.e));
    AddBits(s.h, BigSigma1(s.e));
    var u := Add(t, Ch(s.e, s.f, s.g));
    AddBits(t, Ch(s.e, s.f, s.g));
    AddBits(u, k);
    AddBits(Add(u, k), w);
    var t1 := Add(Add(u, k), w);
    Upper0Bits(s.a);
    MajorityBits(s.a, s.b, s.c);
    AddBits(BigSigma0(s.a), Maj(s.a, s.b, s.c));
    AddBits(t1, Add(BigSigma0(s.a), Maj(s.a, s.b, s.c)));
    AddBits(s.d, t1);
    var r := Bits(s);
    SumsAre(r.h, Upper1(r.e), Choose(r.e, r.f, r.g), ToBits(k), ToBits(w));
    SumOfSums(r.h, Upper1(r.e), Choose(r.e, r.f, r.g), ToBits(k), ToBits(w), r.d, 0);
    SumOfSums(r.h, Upper1(r.e), Choose(r.e, r.f, r.g), ToBits(k), ToBits(w),
              Upper0(r.a), Majority(r.a, r.b, r.c));
    NextAIs(r.a, r.b, r.c, r.e, r.f, r.g, r.h, ToBits(k), ToBits(w));
    NextEIs(r.d, r.e, r.f, r.g, r.h, ToBits(k), ToBits(w));
  }

  // ---- Sixteen words and sixteen rounds.

  /** Step 1 written out. */
  function NextWord(w2: bv32, w7: bv32, w15: bv32, w16: bv32): bv32 {
    (((w2 >> 17) | (w2 << 15)) ^ ((w2 >> 19) | (w2 << 13)) ^ (w2 >> 10)) + w7
    + (((w15 >> 7) | (w15 << 25)) ^ ((w15 >> 18) | (w15 << 14)) ^ (w15 >> 3)) + w16
  }

  lemma NextWordParts(w2: bv32, w7: bv32, w15: bv32, w16: bv32)
    ensures NextWord(w2, w7, w15, w16)
         == Sum4(((w2 >> 17) | (w2 << 15)) ^ ((w2 >> 19) | (w2 << 13)) ^ (w2 >> 10), w7,
                 ((w15 >> 7) | (w15 << 25)) ^ ((w15 >> 18) | (w15 << 14)) ^ (w15 >> 3), w16)
  {
  }

  lemma NextWordIs(w2: bv32, w7: bv32, w15: bv32, w16: bv32)
    ensures NextWord(w2, w7, w15, w16) == Sum(Sum(Sum(Lower1(w2), w7), Lower0(w15)), w16)
  {
    hide Sum, Sum4, Lower0, Lower1, NextWord;
    NextWordParts(w2, w7, w15, w16);
    Lower1Is(w2);
    Lower0Is(w15);
    SumsAre(Lower1(w2), w7, Lower0(w15), w16, 0);
  }

  function NextWords(x: Words): Words {
    var w16 := NextWord(x.w14, x.w9, x.w1, x.w0);
    var w17 := NextWord(x.w15, x.w10, x.w2, x.w1);
    var w18 := NextWord(w16, x.w11, x.w3, x.w2);
    var w19 := NextWord(w17, x.w12, x.w4, x.w3);
    var w20 := NextWord(w18, x.w13, x.w5, x.w4);
    var w21 := NextWord(w19, x.w14, x.w6, x.w5);
    var w22 := NextWord(w20, x.w15, x.w7, x.w6);
    var w23 := NextWord(w21, w16, x.w8, x.w7);
    var w24 := NextWord(w22, w17, x.w9, x.w8);
    var w25 := NextWord(w23, w18, x.w10, x.w9);
    var w26 := NextWord(w24, w19, x.w11, x.w10);
    var w27 := NextWord(w25, w20, x.w12, x.w11);
    var w28 := NextWord(w26, w21, x.w13, x.w12);
    var w29 := NextWord(w27, w22, x.w14, x.w13);
    var w30 := NextWord(w28, w23, x.w15, x.w14);
    var w31 := NextWord(w29, w24, w16, x.w15);
    Words(w16, w17, w18, w19, w20, w21, w22, w23, w24, w25, w26, w27, w28, w29, w30, w31)
  }

  function SixteenRounds(s: Registers, x: Words, k: Words): Registers {
    var s1 := RoundOf(s, k.w0, x.w0);
    var s2 := RoundOf(s1, k.w1, x.w1);
    var s3 := RoundOf(s2, k.w2, x.w2);
    var s4 := RoundOf(s3, k.w3, x.w3);
    var s5 := RoundOf(s4, k.w4, x.w4);
    var s6 := RoundOf(s5, k.w5, x.w5);
    var s7 := RoundOf(s6, k.w6, x.w6);
    var s8 := RoundOf(s7, k.w7, x.w7);
    var s9 := RoundOf(s8, k.w8, x.w8);
    var s10 := RoundOf(s9, k.w9, x.w9);
    var s11 := RoundOf(s10, k.w10, x.w10);
    var s12 := RoundOf(s11, k.w11, x.w11);
    var s13 := RoundOf(s12, k.w12, x.w12);
    var s14 := RoundOf(s13, k.w13, x.w13);
    var s15 := RoundOf(s14, k.w14, x.w14);
    RoundOf(s15, k.w15, x.w15)
  }

  function WordBits(block: Block, t: nat): bv32
    requires t < 64
  {
    ToBits(W(block, t))
  }

  function ConstantBits(t: nat): bv32
    requires t < 64
  {
    ToBits(K(t))
  }

  /** Words `t` to `t + 15` of the schedule. */
  function Window(block: Block, t: nat): Words
    requires t <= 48
  {
    Words(WordBits(block, t), WordBits(block, t + 1), WordBits(block, t + 2), WordBits(block, t + 3),
          WordBits(block, t + 4), WordBits(block, t + 5), WordBits(block, t + 6), WordBits(block, t + 7),
          WordBits(block, t + 8), WordBits(block, t + 9), WordBits(block, t + 10), WordBits(block, t + 11),
          WordBits(block, t + 12), WordBits(block, t + 13), WordBits(block, t + 14), WordBits(block, t + 15))
  }

  function Constants(t: nat): Words
    requires t <= 48
  {
    Words(ConstantBits(t), ConstantBits(t + 1), ConstantBits(t + 2), ConstantBits(t + 3),
          ConstantBits(t + 4), ConstantBits(t + 5), ConstantBits(t + 6), ConstantBits(t + 7),
          ConstantBits(t + 8), ConstantBits(t + 9), ConstantBits(t + 10), ConstantBits(t + 11),
          ConstantBits(t + 12), ConstantBits(t + 13), ConstantBits(t + 14), ConstantBits(t + 15))
  }

  lemma WordStep(block: Block, t: nat)
    requires 16 <= t < 64
    ensures WordBits(block, t) == NextWord(WordBits(block, t - 2), WordBits(block, t - 7),
                                           WordBits(block, t - 15), WordBits(block, t - 16))
  {
    hide ToBits, Add, Sum, SmallSigma0, SmallSigma1, Lower0, Lower1, NextWord;
    var w2, w7, w15, w16 := W(block, t - 2), W(block, t - 7), W(block, t - 15), W(block, t - 16);
    Lower1Bits(w2);
    Lower0Bits(w15);
    AddBits(SmallSigma1(w2), w7);
    AddBits(Add(SmallSigma1(w2), w7), SmallSigma0(w15));
    AddBits(Add(Add(SmallSigma1(w2), w7), SmallSigma0(w15)), w16);
    NextWordIs(ToBits(w2), ToBits(w7), ToBits(w15), ToBits(w16));
  }

  lemma WindowStep(block: Block, t: nat)
    requires t <= 32
    ensures Window(block, t + 16) == NextWords(Window(block, t))
  {
    hide WordBits, NextWord;
    WordStep(block, t + 16); WordStep(block, t + 17); WordStep(block, t + 18); WordStep(block, t + 19);
    WordStep(block, t + 20); WordStep(block, t + 21); WordStep(block, t + 22); WordStep(block, t + 23);
    WordStep(block, t + 24); WordStep(block, t + 25); WordStep(block, t + 26); WordStep(block, t + 27);
    WordStep(block, t + 28); WordStep(block, t + 29); WordStep(block, t + 30); WordStep(block, t + 31);
  }

  /** The variables after the first `t` rounds. */
  function After(s: State, block: Block, t: nat): Registers
    requires t <= 64
  {
    Bits(Rounds(s, Schedule(block)[..t]))
  }

  lemma AfterRound(s: State, block: Block, t: nat)
    requires t < 64
    ensures After(s, block, t + 1) == RoundOf(After(s, block, t), ConstantBits(t), WordBits(block, t))
  {
    hide Bits, Round, RoundOf, W, K, ToBits;
    var w := Schedule(block);
    assert w[..t + 1][..t] == w[..t] && w[..t + 1][t] == W(block, t);
    RoundBits(Rounds(s, w[..t]), K(t), W(block, t));
  }

  lemma AfterSixteen(s: State, block: Block, t: nat)
    requires t <= 48
    ensures After(s, block, t + 16) == SixteenRounds(After(s, block, t), Window(block, t), Constants(t))
  {
    hide After, RoundOf, WordBits, ConstantBits;
    AfterRound(s, block, t); AfterRound(s, block, t + 1); AfterRound(s, block, t + 2);
    AfterRound(s, block, t + 3); AfterRound(s, block, t + 4); AfterRound(s, block, t + 5);
    AfterRound(s, block, t + 6); AfterRound(s, block, t + 7); AfterRound(s, block, t + 8);
    AfterRound(s, block, t + 9); AfterRound(s, block, t + 10); AfterRound(s, block, t + 11);
    AfterRound(s, block, t + 12); AfterRound(s, block, t + 13); AfterRound(s, block, t + 14);
    AfterRound(s, block, t + 15);
  }

  // ---- The round constants, as `K` has them.

  const FIRST := Words(
    0x428a2f98, 0x71374491, 0xb5c0fbcf, 0xe9b5dba5, 0x3956c25b, 0x59f111f1, 0x923f82a4, 0xab1c5ed5,
    0xd807aa98, 0x12835b01, 0x243185be, 0x550c7dc3, 0x72be5d74, 0x80deb1fe, 0x9bdc06a7, 0xc19bf174)

  const SECOND := Words(
    0xe49b69c1, 0xefbe4786, 0x0fc19dc6, 0x240ca1cc, 0x2de92c6f, 0x4a7484aa, 0x5cb0a9dc, 0x76f988da,
    0x983e5152, 0xa831c66d, 0xb00327c8, 0xbf597fc7, 0xc6e00bf3, 0xd5a79147, 0x06ca6351, 0x14292967)

  const THIRD := Words(
    0x27b70a85, 0x2e1b2138, 0x4d2c6dfc, 0x53380d13, 0x650a7354, 0x766a0abb, 0x81c2c92e, 0x92722c85,
    0xa2bfe8a1, 0xa81a664b, 0xc24b8b70, 0xc76c51a3, 0xd192e819, 0xd6990624, 0xf40e3585, 0x106aa070)

  const FOURTH := Words(
    0x19a4c116, 0x1e376c08, 0x2748774c, 0x34b0bcb5, 0x391c0cb3, 0x4ed8aa4a, 0x5b9cca4f, 0x682e6ff3,
    0x748f82ee, 0x78a5636f, 0x84c87814, 0x8cc70208, 0x90befffa, 0xa4506ceb, 0xbef9a3f7, 0xc67178f2)

  lemma ConstantAt(t: nat, b: bv32)
    requires t < 64 && K(t) == OfBits(b)
    ensures ConstantBits(t) == b
  {
    hide K, ToBits, OfBits;
    Back(b);
  }

  lemma FirstConstants()
    ensures Constants(0) == FIRST
  {
    hide ConstantBits;
    ConstantAt(0, 0x428a2f98); ConstantAt(1, 0x71374491);
    ConstantAt(2, 0xb5c0fbcf); ConstantAt(3, 0xe9b5dba5);
    ConstantAt(4, 0x3956c25b); ConstantAt(5, 0x59f111f1);
    ConstantAt(6, 0x923f82a4); ConstantAt(7, 0xab1c5ed5);
    ConstantAt(8, 0xd807aa98); ConstantAt(9, 0x12835b01);
    ConstantAt(10, 0x243185be); ConstantAt(11, 0x550c7dc3);
    ConstantAt(12, 0x72be5d74); ConstantAt(13, 0x80deb1fe);
    ConstantAt(14, 0x9bdc06a7); ConstantAt(15, 0xc19bf174);
  }

  lemma SecondConstants()
    ensures Constants(16) == SECOND
  {
    hide ConstantBits;
    ConstantAt(16, 0xe49b69c1); ConstantAt(17, 0xefbe4786);
    ConstantAt(18, 0x0fc19dc6); ConstantAt(19, 0x240ca1cc);
    ConstantAt(20, 0x2de92c6f); ConstantAt(21, 0x4a7484aa);
    ConstantAt(22, 0x5cb0a9dc); ConstantAt(23, 0x76f988da);
    ConstantAt(24, 0x983e5152); ConstantAt(25, 0xa831c66d);
    ConstantAt(26, 0xb00327c8); ConstantAt(27, 0xbf597fc7);
    ConstantAt(28, 0xc6e00bf3); ConstantAt(29, 0xd5a79147);
    ConstantAt(30, 0x06ca6351); ConstantAt(31, 0x14292967);
  }

  lemma ThirdConstants()
    ensures Constants(32) == THIRD
  {
    hide ConstantBits;
    ConstantAt(32, 0x27b70a85); ConstantAt(33, 0x2e1b2138);
    ConstantAt(34, 0x4d2c6dfc); ConstantAt(35, 0x53380d13);
    ConstantAt(36, 0x650a7354); ConstantAt(37, 0x766a0abb);
    ConstantAt(38, 0x81c2c92e); ConstantAt(39, 0x92722c85);
    ConstantAt(40, 0xa2bfe8a1); ConstantAt(41, 0xa81a664b);
    ConstantAt(42, 0xc24b8b70); ConstantAt(43, 0xc76c51a3);
    ConstantAt(44, 0xd192e819); ConstantAt(45, 0xd6990624);
    ConstantAt(46, 0xf40e3585); ConstantAt(47, 0x106aa070);
  }

  lemma FourthConstants()
    ensures Constants(48) == FOURTH
  {
    hide ConstantBits;
    ConstantAt(48, 0x19a4c116); ConstantAt(49, 0x1e376c08);
    ConstantAt(50, 0x2748774c); ConstantAt(51, 0x34b0bcb5);
    ConstantAt(52, 0x391c0cb3); ConstantAt(53, 0x4ed8aa4a);
    ConstantAt(54, 0x5b9cca4f); ConstantAt(55, 0x682e6ff3);
    ConstantAt(56, 0x748f82ee); ConstantAt(57, 0x78a5636f);
    ConstantAt(58, 0x84c87814); ConstantAt(59, 0x8cc70208);
    ConstantAt(60, 0x90befffa); ConstantAt(61, 0xa4506ceb);
    ConstantAt(62, 0xbef9a3f7); ConstantAt(63, 0xc67178f2);
  }

  // ---- One block.

  /** Step 4: the sums of the variables and the previous hash value. */
  function Forward(v: Registers, s: Registers): Registers {
    Registers(Sum(v.a, s.a), Sum(v.b, s.b), Sum(v.c, s.c), Sum(v.d, s.d),
              Sum(v.e, s.e), Sum(v.f, s.f), Sum(v.g, s.g), Sum(v.h, s.h))
  }

  function CompressBlock(s: Registers, x: Words): Registers {
    var x1 := NextWords(x);
    var x2 := NextWords(x1);
    var x3 := NextWords(x2);
    var v1 := SixteenRounds(s, x, FIRST);
    var v2 := SixteenRounds(v1, x1, SECOND);
    var v3 := SixteenRounds(v2, x2, THIRD);
    Forward(SixteenRounds(v3, x3, FOURTH), s)
  }

  function OfRegisters(r: Registers): State {
    State(OfBits(r.a), OfBits(r.b), OfBits(r.c), OfBits(r.d), OfBits(r.e), OfBits(r.f), OfBits(r.g), OfBits(r.h))
  }

  lemma ForwardBits(v: State, s: State)
    ensures State(Add(v.a, s.a), Add(v.b, s.b), Add(v.c, s.c), Add(v.d, s.d),
                  Add(v.e, s.e), Add(v.f, s.f), Add(v.g, s.g), Add(v.h, s.h))
            == OfRegisters(Forward(Bits(v), Bits(s)))
  {
    hide ToBits, OfBits, Add, Sum;
    AddBits(v.a, s.a); AddBits(v.b, s.b); AddBits(v.c, s.c); AddBits(v.d, s.d);
    AddBits(v.e, s.e); AddBits(v.f, s.f); AddBits(v.g, s.g); AddBits(v.h, s.h);
  }

  /** For every state and block, what the vectors compute is what the standard defines. */
  lemma CompressIsCompressBlock(s: State, block: Block)
    ensures Compress(s, block) == OfRegisters(CompressBlock(Bits(s), Window(block, 0)))
  {
    hide Bits, Forward, Add, OfRegisters, SixteenRounds, NextWords, Window, Constants, Schedule, Rounds, After;
    FirstConstants();
    SecondConstants();
    ThirdConstants();
    FourthConstants();
    WindowStep(block, 0);
    WindowStep(block, 16);
    WindowStep(block, 32);
    AfterSixteen(s, block, 0);
    AfterSixteen(s, block, 16);
    AfterSixteen(s, block, 32);
    AfterSixteen(s, block, 48);
    AfterNone(s, block);
    AfterAll(s, block);
    ForwardBits(Rounds(s, Schedule(block)), s);
  }

  lemma AfterNone(s: State, block: Block)
    ensures After(s, block, 0) == Bits(s)
  {
    hide Bits;
  }

  lemma AfterAll(s: State, block: Block)
    ensures After(s, block, 64) == Bits(Rounds(s, Schedule(block)))
  {
    hide Bits, Rounds;
    assert Schedule(block)[..64] == Schedule(block);
  }
}
