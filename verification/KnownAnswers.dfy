/** Published answers: the standard's functions give the values that the repository's own tests expect,
    SHA-256 of "abc" and test case 2 of section 4.3 of RFC 4231 for HMAC-SHA-256. With the proofs in
    `Sha256.dfy` and `Hmac.dfy`, so does the hand-written code. */
module KnownAnswers {
  import opened Fips180Constants
  import opened Fips180
  import opened Fips180Bits
  import opened KnownBlocks
  import F = Fips198

  // ---- One block.

  function WordAt(block: Block, t: nat): Word
    requires t < 16
  {
    WordOf(block[4 * t], block[4 * t + 1], block[4 * t + 2], block[4 * t + 3])
  }

  function Pick(x: Words, t: nat): bv32
    requires t < 16
  {
    match t
    case 0 => x.w0 case 1 => x.w1 case 2 => x.w2 case 3 => x.w3
    case 4 => x.w4 case 5 => x.w5 case 6 => x.w6 case 7 => x.w7
    case 8 => x.w8 case 9 => x.w9 case 10 => x.w10 case 11 => x.w11
    case 12 => x.w12 case 13 => x.w13 case 14 => x.w14 case _ => x.w15
  }

  predicate IsSpelled(block: Block, x: Words, t: nat)
    requires t < 16
  {
    WordAt(block, t) == OfBits(Pick(x, t))
  }

  /** The block holds the sixteen words. */
  predicate Spells(block: Block, x: Words) { forall t :: 0 <= t < 16 ==> IsSpelled(block, x, t) }

  /** Four bytes are word `t` of the sixteen. */
  predicate IsWord(x: Words, t: nat, b0: Byte, b1: Byte, b2: Byte, b3: Byte) {
    t < 16 && WordOf(b0, b1, b2, b3) == OfBits(Pick(x, t))
  }

  lemma Numeral(x: Words, t: nat, b0: Byte, b1: Byte, b2: Byte, b3: Byte, w: bv32)
    requires t < 16 && Pick(x, t) == w && WordOf(b0, b1, b2, b3) == OfBits(w)
    ensures IsWord(x, t, b0, b1, b2, b3)
  {
    hide OfBits, WordOf, Pick;
  }

  /** The words from `from` to `to` consist of the byte `b`. */
  predicate AreWords(x: Words, from: nat, to: nat, b: Byte) {
    forall t :: from <= t < to ==> IsWord(x, t, b, b, b, b)
  }

  lemma Numerals(x: Words, from: nat, to: nat, b: Byte, w: bv32)
    requires from <= to <= 16 && WordOf(b, b, b, b) == OfBits(w) && forall t :: from <= t < to ==> Pick(x, t) == w
    ensures AreWords(x, from, to, b)
  {
    hide OfBits, WordOf, Pick;
  }

  lemma NoBits()
    ensures WordOf(0, 0, 0, 0) == OfBits(0)
  {
  }

  lemma Zeros(x: Words, from: nat, to: nat)
    requires from <= to <= 16 && forall t :: from <= t < to ==> Pick(x, t) == 0
    ensures AreWords(x, from, to, 0)
  {
    hide Pick, OfBits, WordOf;
    NoBits();
  }

  lemma Spelled(block: Block, x: Words, t: nat)
    requires t < 16 && IsWord(x, t, block[4 * t], block[4 * t + 1], block[4 * t + 2], block[4 * t + 3])
    ensures IsSpelled(block, x, t)
  {
    hide OfBits, WordOf, Pick;
  }

  lemma SpelledWord(block: Block, x: Words, t: nat)
    requires t < 16 && IsSpelled(block, x, t)
    ensures WordBits(block, t) == Pick(x, t)
  {
    hide ToBits, OfBits, WordOf, Pick;
    Back(Pick(x, t));
  }

  lemma SpelledWindow(block: Block, x: Words)
    requires Spells(block, x)
    ensures Window(block, 0) == x
  {
    hide IsSpelled, WordBits;
    SpelledWord(block, x, 0); SpelledWord(block, x, 1);
    SpelledWord(block, x, 2); SpelledWord(block, x, 3);
    SpelledWord(block, x, 4); SpelledWord(block, x, 5);
    SpelledWord(block, x, 6); SpelledWord(block, x, 7);
    SpelledWord(block, x, 8); SpelledWord(block, x, 9);
    SpelledWord(block, x, 10); SpelledWord(block, x, 11);
    SpelledWord(block, x, 12); SpelledWord(block, x, 13);
    SpelledWord(block, x, 14); SpelledWord(block, x, 15);
  }

  lemma BitsOfRegisters(r: Registers)
    ensures Bits(OfRegisters(r)) == r
  {
    hide ToBits, OfBits;
    Back(r.a); Back(r.b); Back(r.c); Back(r.d); Back(r.e); Back(r.f); Back(r.g); Back(r.h);
  }

  /** One compression, from its computation on vectors. */
  lemma CompressionIs(s: Registers, block: Block, x: Words, out: Registers)
    requires Spells(block, x) && CompressBlock(s, x) == out
    ensures Compress(OfRegisters(s), block) == OfRegisters(out)
  {
    hide Compress, CompressBlock, OfRegisters, Bits, Spells, Window;
    SpelledWindow(block, x);
    BitsOfRegisters(s);
    CompressIsCompressBlock(OfRegisters(s), block);
  }

  lemma StartIs()
    ensures H0 == OfRegisters(START)
  {
  }

  lemma OneBlock(s: State, block: Block)
    ensures Fold(s, Parse(block)) == Compress(s, block)
  {
    hide Compress;
    assert block[BLOCK * 0..BLOCK * 0 + BLOCK] == block;
    assert Parse(block) == [block];
    F.FoldOne(s, block);
  }

  lemma LastByte(x: nat, y: nat, b: Byte, n: nat)
    requires x == 256 * y + b
    ensures BigEndian(x, n + 1) == BigEndian(y, n) + [b]
  {
    assert x / 256 == y && x % 256 == b;
  }

  lemma BytesOfWord(b0: Byte, b1: Byte, b2: Byte, b3: Byte)
    ensures BigEndian(WordOf(b0, b1, b2, b3), 4) == [b0, b1, b2, b3]
  {
    hide BigEndian;
    var y := 0x1_0000 * b0 + 0x100 * b1 + b2;
    var z := 0x100 * b0 + b1;
    LastByte(WordOf(b0, b1, b2, b3), y, b3, 3);
    LastByte(y, z, b2, 2);
    LastByte(z, b0, b1, 1);
    LastByte(b0, 0, b0, 0);
    assert BigEndian(0, 0) == [];
  }

  lemma HalfOf(a: bv32, b: bv32, c: bv32, d: bv32, bytes: seq<Byte>)
    requires |bytes| == 16
    requires OfBits(a) == WordOf(bytes[0], bytes[1], bytes[2], bytes[3])
    requires OfBits(b) == WordOf(bytes[4], bytes[5], bytes[6], bytes[7])
    requires OfBits(c) == WordOf(bytes[8], bytes[9], bytes[10], bytes[11])
    requires OfBits(d) == WordOf(bytes[12], bytes[13], bytes[14], bytes[15])
    ensures BigEndian(OfBits(a), 4) + BigEndian(OfBits(b), 4) + BigEndian(OfBits(c), 4) + BigEndian(OfBits(d), 4)
         == bytes
  {
    hide BigEndian, WordOf, OfBits;
    BytesOfWord(bytes[0], bytes[1], bytes[2], bytes[3]);
    BytesOfWord(bytes[4], bytes[5], bytes[6], bytes[7]);
    BytesOfWord(bytes[8], bytes[9], bytes[10], bytes[11]);
    BytesOfWord(bytes[12], bytes[13], bytes[14], bytes[15]);
  }

  lemma DigestOf(
    a: bv32, b: bv32, c: bv32, d: bv32, e: bv32, f: bv32, g: bv32, h: bv32, bytes: seq<Byte>)
    requires |bytes| == DIGEST
    requires OfBits(a) == WordOf(bytes[0], bytes[1], bytes[2], bytes[3])
    requires OfBits(b) == WordOf(bytes[4], bytes[5], bytes[6], bytes[7])
    requires OfBits(c) == WordOf(bytes[8], bytes[9], bytes[10], bytes[11])
    requires OfBits(d) == WordOf(bytes[12], bytes[13], bytes[14], bytes[15])
    requires OfBits(e) == WordOf(bytes[16], bytes[17], bytes[18], bytes[19])
    requires OfBits(f) == WordOf(bytes[20], bytes[21], bytes[22], bytes[23])
    requires OfBits(g) == WordOf(bytes[24], bytes[25], bytes[26], bytes[27])
    requires OfBits(h) == WordOf(bytes[28], bytes[29], bytes[30], bytes[31])
    ensures Digest(OfRegisters(Registers(a, b, c, d, e, f, g, h))) == bytes
  {
    hide BigEndian, WordOf, OfBits;
    HalfOf(a, b, c, d, bytes[..16]);
    HalfOf(e, f, g, h, bytes[16..]);
    assert bytes == bytes[..16] + bytes[16..];
  }

  // ---- "abc".

  const ABC: seq<Byte> := [0x61, 0x62, 0x63]

  const ABC_DIGEST: seq<Byte> := [
    0xba, 0x78, 0x16, 0xbf, 0x8f, 0x01, 0xcf, 0xea, 0x41, 0x41, 0x40, 0xde, 0x5d, 0xae, 0x22, 0x23,
    0xb0, 0x03, 0x61, 0xa3, 0x96, 0x17, 0x7a, 0x9c, 0xb4, 0x10, 0xff, 0x61, 0xf2, 0x00, 0x15, 0xad]

  lemma AbcPadded()
    ensures Pad(ABC) == [0x61, 0x62, 0x63, 0x80] + seq(59, _ => 0) + [24]
  {
    assert BigEndian(24, 8) == [0, 0, 0, 0, 0, 0, 0, 24];
  }

  lemma AbcNumerals(x: Words)
    requires x == ABC_WORDS_0
    ensures IsWord(x, 0, 0x61, 0x62, 0x63, 0x80)
    ensures AreWords(x, 1, 15, 0)
    ensures IsWord(x, 15, 0, 0, 0, 0x18)
  {
    hide IsWord, AreWords;
    Numeral(x, 0, 0x61, 0x62, 0x63, 0x80, 0x61626380);
    Zeros(x, 1, 15);
    Numeral(x, 15, 0, 0, 0, 0x18, 0x00000018);
  }

  lemma AbcSpelled(p: Block)
    requires p == [0x61, 0x62, 0x63, 0x80] + seq(59, _ => 0) + [24]
    ensures Spells(p, ABC_WORDS_0)
  {
    hide IsWord, IsSpelled;
    AbcNumerals(ABC_WORDS_0);
    forall t | 0 <= t < 16 ensures IsSpelled(p, ABC_WORDS_0, t) { Spelled(p, ABC_WORDS_0, t); }
  }

  lemma AbcDigest()
    ensures Digest(OfRegisters(ABC_HASH)) == ABC_DIGEST
  {
    hide Digest;
    DigestOf(0xba7816bf, 0x8f01cfea, 0x414140de, 0x5dae2223,
             0xb00361a3, 0x96177a9c, 0xb410ff61, 0xf20015ad, ABC_DIGEST);
  }

  lemma HashOfAbc()
    ensures Hash(ABC) == ABC_DIGEST
  {
    hide Compress, CompressBlock, Digest, Spells, Pad, OfRegisters;
    AbcPadded();
    var p: Block := Pad(ABC);
    AbcSpelled(p);
    AbcBlock();
    StartIs();
    CompressionIs(START, p, ABC_WORDS_0, ABC_HASH);
    OneBlock(H0, p);
    AbcDigest();
  }

  // ---- RFC 4231, test case 2: the key "Jefe" and the text "what do ya want for nothing?".

  const KEY: seq<Byte> := [0x4a, 0x65, 0x66, 0x65]

  const TEXT: seq<Byte> := [
    0x77, 0x68, 0x61, 0x74, 0x20, 0x64, 0x6f, 0x20, 0x79, 0x61, 0x20, 0x77, 0x61, 0x6e, 0x74, 0x20,
    0x66, 0x6f, 0x72, 0x20, 0x6e, 0x6f, 0x74, 0x68, 0x69, 0x6e, 0x67, 0x3f]

  const INNER_DIGEST: seq<Byte> := [
    0xa2, 0xe4, 0x85, 0x86, 0x3d, 0x27, 0xf9, 0xd8, 0x64, 0xac, 0x8d, 0x80, 0x24, 0x32, 0xa1, 0xed,
    0x47, 0x7d, 0x8c, 0x4c, 0x6f, 0x34, 0x9d, 0x16, 0xd4, 0xe7, 0xe9, 0x17, 0xc6, 0x29, 0xca, 0xd7]

  const MAC: seq<Byte> := [
    0x5b, 0xdc, 0xc1, 0x46, 0xbf, 0x60, 0x75, 0x4e, 0x6a, 0x04, 0x24, 0x26, 0x08, 0x95, 0x75, 0xc7,
    0x5a, 0x00, 0x3f, 0x08, 0x9d, 0x27, 0x39, 0x83, 0x9d, 0xec, 0x58, 0xb9, 0x64, 0xec, 0x38, 0x43]

  lemma XorBytes()
    ensures F.XorByte(0x36, 0x4a) == 0x7c && F.XorByte(0x36, 0x65) == 0x53 && F.XorByte(0x36, 0x66) == 0x50
    ensures F.XorByte(0x5c, 0x4a) == 0x16 && F.XorByte(0x5c, 0x65) == 0x39 && F.XorByte(0x5c, 0x66) == 0x3a
    ensures F.XorByte(0x36, 0) == 0x36 && F.XorByte(0x5c, 0) == 0x5c
  {
  }

  lemma KeyXored()
    ensures F.XorPad(F.BlockKey(KEY), F.IPAD) == [0x7c, 0x53, 0x50, 0x53] + seq(60, _ => 0x36)
    ensures F.XorPad(F.BlockKey(KEY), F.OPAD) == [0x16, 0x39, 0x3a, 0x39] + seq(60, _ => 0x5c)
  {
    XorBytes();
    hide F.XorByte;
  }

  lemma InnerNumerals(x: Words)
    requires x == INNER_WORDS_0
    ensures IsWord(x, 0, 0x7c, 0x53, 0x50, 0x53)
    ensures AreWords(x, 1, 16, 0x36)
  {
    hide IsWord, AreWords;
    Numeral(x, 0, 0x7c, 0x53, 0x50, 0x53, 0x7c535053);
    Numerals(x, 1, 16, 0x36, 0x36363636);
  }

  lemma InnerSpelled(p: Block)
    requires p == [0x7c, 0x53, 0x50, 0x53] + seq(60, _ => 0x36)
    ensures Spells(p, INNER_WORDS_0)
  {
    hide IsWord, IsSpelled;
    InnerNumerals(INNER_WORDS_0);
    forall t | 0 <= t < 16 ensures IsSpelled(p, INNER_WORDS_0, t) { Spelled(p, INNER_WORDS_0, t); }
  }

  lemma OuterNumerals(x: Words)
    requires x == OUTER_WORDS_0
    ensures IsWord(x, 0, 0x16, 0x39, 0x3a, 0x39)
    ensures AreWords(x, 1, 16, 0x5c)
  {
    hide IsWord, AreWords;
    Numeral(x, 0, 0x16, 0x39, 0x3a, 0x39, 0x16393a39);
    Numerals(x, 1, 16, 0x5c, 0x5c5c5c5c);
  }

  lemma OuterSpelled(p: Block)
    requires p == [0x16, 0x39, 0x3a, 0x39] + seq(60, _ => 0x5c)
    ensures Spells(p, OUTER_WORDS_0)
  {
    hide IsWord, IsSpelled;
    OuterNumerals(OUTER_WORDS_0);
    forall t | 0 <= t < 16 ensures IsSpelled(p, OUTER_WORDS_0, t) { Spelled(p, OUTER_WORDS_0, t); }
  }

  lemma TextPadded()
    ensures TEXT + Padding(BLOCK + |TEXT|) == TEXT + [0x80] + seq(33, _ => 0) + [2, 0xe0]
  {
    assert BigEndian(736, 8) == [0, 0, 0, 0, 0, 0, 2, 0xe0];
  }

  lemma TextNumerals(x: Words)
    requires x == TEXT_WORDS_0
    ensures IsWord(x, 0, 0x77, 0x68, 0x61, 0x74)
    ensures IsWord(x, 1, 0x20, 0x64, 0x6f, 0x20)
    ensures IsWord(x, 2, 0x79, 0x61, 0x20, 0x77)
    ensures IsWord(x, 3, 0x61, 0x6e, 0x74, 0x20)
    ensures IsWord(x, 4, 0x66, 0x6f, 0x72, 0x20)
    ensures IsWord(x, 5, 0x6e, 0x6f, 0x74, 0x68)
    ensures IsWord(x, 6, 0x69, 0x6e, 0x67, 0x3f)
    ensures IsWord(x, 7, 0x80, 0, 0, 0)
    ensures AreWords(x, 8, 15, 0)
    ensures IsWord(x, 15, 0, 0, 0x02, 0xe0)
  {
    hide IsWord, AreWords;
    Numeral(x, 0, 0x77, 0x68, 0x61, 0x74, 0x77686174);
    Numeral(x, 1, 0x20, 0x64, 0x6f, 0x20, 0x20646f20);
    Numeral(x, 2, 0x79, 0x61, 0x20, 0x77, 0x79612077);
    Numeral(x, 3, 0x61, 0x6e, 0x74, 0x20, 0x616e7420);
    Numeral(x, 4, 0x66, 0x6f, 0x72, 0x20, 0x666f7220);
    Numeral(x, 5, 0x6e, 0x6f, 0x74, 0x68, 0x6e6f7468);
    Numeral(x, 6, 0x69, 0x6e, 0x67, 0x3f, 0x696e673f);
    Numeral(x, 7, 0x80, 0, 0, 0, 0x80000000);
    Zeros(x, 8, 15);
    Numeral(x, 15, 0, 0, 0x02, 0xe0, 0x000002e0);
  }

  lemma TextSpelled(p: Block)
    requires p == TEXT + [0x80] + seq(33, _ => 0) + [2, 0xe0]
    ensures Spells(p, TEXT_WORDS_0)
  {
    hide IsWord, IsSpelled;
    TextNumerals(TEXT_WORDS_0);
    forall t | 0 <= t < 16 ensures IsSpelled(p, TEXT_WORDS_0, t) { Spelled(p, TEXT_WORDS_0, t); }
  }

  lemma InnerPadded()
    ensures INNER_DIGEST + Padding(BLOCK + |INNER_DIGEST|) == INNER_DIGEST + [0x80] + seq(29, _ => 0) + [3, 0]
  {
    assert BigEndian(768, 8) == [0, 0, 0, 0, 0, 0, 3, 0];
  }

  lemma MacNumerals(x: Words)
    requires x == MAC_WORDS_0
    ensures IsWord(x, 0, 0xa2, 0xe4, 0x85, 0x86)
    ensures IsWord(x, 1, 0x3d, 0x27, 0xf9, 0xd8)
    ensures IsWord(x, 2, 0x64, 0xac, 0x8d, 0x80)
    ensures IsWord(x, 3, 0x24, 0x32, 0xa1, 0xed)
    ensures IsWord(x, 4, 0x47, 0x7d, 0x8c, 0x4c)
    ensures IsWord(x, 5, 0x6f, 0x34, 0x9d, 0x16)
    ensures IsWord(x, 6, 0xd4, 0xe7, 0xe9, 0x17)
    ensures IsWord(x, 7, 0xc6, 0x29, 0xca, 0xd7)
    ensures IsWord(x, 8, 0x80, 0, 0, 0)
    ensures AreWords(x, 9, 15, 0)
    ensures IsWord(x, 15, 0, 0, 0x03, 0)
  {
    hide IsWord, AreWords;
    Numeral(x, 0, 0xa2, 0xe4, 0x85, 0x86, 0xa2e48586);
    Numeral(x, 1, 0x3d, 0x27, 0xf9, 0xd8, 0x3d27f9d8);
    Numeral(x, 2, 0x64, 0xac, 0x8d, 0x80, 0x64ac8d80);
    Numeral(x, 3, 0x24, 0x32, 0xa1, 0xed, 0x2432a1ed);
    Numeral(x, 4, 0x47, 0x7d, 0x8c, 0x4c, 0x477d8c4c);
    Numeral(x, 5, 0x6f, 0x34, 0x9d, 0x16, 0x6f349d16);
    Numeral(x, 6, 0xd4, 0xe7, 0xe9, 0x17, 0xd4e7e917);
    Numeral(x, 7, 0xc6, 0x29, 0xca, 0xd7, 0xc629cad7);
    Numeral(x, 8, 0x80, 0, 0, 0, 0x80000000);
    Zeros(x, 9, 15);
    Numeral(x, 15, 0, 0, 0x03, 0, 0x00000300);
  }

  lemma MacSpelled(p: Block)
    requires p == INNER_DIGEST + [0x80] + seq(29, _ => 0) + [3, 0]
    ensures Spells(p, MAC_WORDS_0)
  {
    hide IsWord, IsSpelled;
    MacNumerals(MAC_WORDS_0);
    forall t | 0 <= t < 16 ensures IsSpelled(p, MAC_WORDS_0, t) { Spelled(p, MAC_WORDS_0, t); }
  }

  lemma InnerDigest()
    ensures Digest(OfRegisters(TEXT_HASH)) == INNER_DIGEST
  {
    hide Digest;
    DigestOf(0xa2e48586, 0x3d27f9d8, 0x64ac8d80, 0x2432a1ed,
             0x477d8c4c, 0x6f349d16, 0xd4e7e917, 0xc629cad7, INNER_DIGEST);
  }

  lemma MacDigest()
    ensures Digest(OfRegisters(MAC_HASH)) == MAC
  {
    hide Digest;
    DigestOf(0x5bdcc146, 0xbf60754e, 0x6a042426, 0x089575c7,
             0x5a003f08, 0x9d273983, 0x9dec58b9, 0x64ec3843, MAC);
  }

  /** A hash of a first block and a rest whose padding fills one more. */
  lemma TwoBlocks(
    first: Block, x: Words, mid: Registers, rest: seq<Byte>, last: Block, y: Words, out: Registers)
    requires Spells(first, x) && CompressBlock(START, x) == mid
    requires last == rest + Padding(BLOCK + |rest|) && Spells(last, y) && CompressBlock(mid, y) == out
    ensures F.Resume(F.Midstate(first), BLOCK, rest) == Digest(OfRegisters(out))
  {
    hide Compress, CompressBlock, Digest, Spells, Padding, OfRegisters;
    StartIs();
    CompressionIs(START, first, x, mid);
    CompressionIs(mid, last, y, out);
    OneBlock(OfRegisters(mid), last);
  }

  lemma InnerHash()
    ensures F.Resume(F.Midstate(F.XorPad(F.BlockKey(KEY), F.IPAD)), BLOCK, TEXT) == INNER_DIGEST
  {
    hide CompressBlock, Digest, Spells, Padding, OfRegisters, F.Resume, F.Midstate, F.XorPad, F.BlockKey;
    KeyXored();
    var first: Block := F.XorPad(F.BlockKey(KEY), F.IPAD);
    InnerSpelled(first);
    InnerBlock();
    TextPadded();
    var last: Block := TEXT + Padding(BLOCK + |TEXT|);
    TextSpelled(last);
    TextBlock();
    TwoBlocks(first, INNER_WORDS_0, INNER_HASH, TEXT, last, TEXT_WORDS_0, TEXT_HASH);
    InnerDigest();
  }

  lemma OuterHash()
    ensures F.Resume(F.Midstate(F.XorPad(F.BlockKey(KEY), F.OPAD)), BLOCK, INNER_DIGEST) == MAC
  {
    hide CompressBlock, Digest, Spells, Padding, OfRegisters, F.Resume, F.Midstate, F.XorPad, F.BlockKey;
    KeyXored();
    var first: Block := F.XorPad(F.BlockKey(KEY), F.OPAD);
    OuterSpelled(first);
    OuterBlock();
    InnerPadded();
    var last: Block := INNER_DIGEST + Padding(BLOCK + |INNER_DIGEST|);
    MacSpelled(last);
    MacBlock();
    TwoBlocks(first, OUTER_WORDS_0, OUTER_HASH, INNER_DIGEST, last, MAC_WORDS_0, MAC_HASH);
    MacDigest();
  }

  lemma MacOfTestCase2()
    ensures F.Mac(KEY, TEXT) == MAC
  {
    hide F.Mac, F.Resume, F.Midstate, F.XorPad, F.BlockKey;
    InnerHash();
    OuterHash();
    F.MacFromMidstates(KEY, TEXT);
  }
}
