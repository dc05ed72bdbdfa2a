/** SHA-256 as FIPS 180-4 defines it, as recursive functions over byte sequences.
    Nothing here follows the hand-written code; `Sha256.dfy` proves that code against it. */
module Fips180 {
  import opened Fips180Constants
  import opened Folds

  const BLOCK := 64
  const DIGEST := 32
  /** Messages of fewer bytes than this have a bit length that fits 64 bits (section 1). */
  const MAX_BYTES := 0x2000_0000_0000_0000

  // ---- Section 4.1.2: functions on words.

  function Ch(x: Word, y: Word, z: Word): Word { Xor(And(x, y), And(Not(x), z)) }
  function Maj(x: Word, y: Word, z: Word): Word { Xor(Xor(And(x, y), And(x, z)), And(y, z)) }
  function BigSigma0(x: Word): Word { Xor(Xor(RotateRight(x, 2), RotateRight(x, 13)), RotateRight(x, 22)) }
  function BigSigma1(x: Word): Word { Xor(Xor(RotateRight(x, 6), RotateRight(x, 11)), RotateRight(x, 25)) }
  function SmallSigma0(x: Word): Word { Xor(Xor(RotateRight(x, 7), RotateRight(x, 18)), ShiftRight(x, 3)) }
  function SmallSigma1(x: Word): Word { Xor(Xor(RotateRight(x, 17), RotateRight(x, 19)), ShiftRight(x, 10)) }

  // ---- Section 3.1: big-endian conversions.

  /** The `n` low-order base-256 digits of `x`, most significant first. */
  function BigEndian(x: nat, n: nat): (bytes: seq<Byte>)
    ensures |bytes| == n
  {
    if n == 0 then [] else BigEndian(x / 256, n - 1) + [x % 256]
  }

  function FromBigEndian(bytes: seq<Byte>): nat {
    if bytes == [] then 0
    else 256 * FromBigEndian(bytes[..|bytes| - 1]) + bytes[|bytes| - 1]
  }

  function WordOf(b0: Byte, b1: Byte, b2: Byte, b3: Byte): Word {
    0x100_0000 * b0 + 0x1_0000 * b1 + 0x100 * b2 + b3
  }

  // ---- Section 5.1.1: padding.

  /** The zero bytes between the 0x80 byte and the length: the least number that leaves the
      padded message a whole number of blocks. */
  function ZeroCount(len: nat): (k: nat)
    ensures k < BLOCK && (len + 1 + k + 8) % BLOCK == 0
  {
    (2 * BLOCK - 9 - len % BLOCK) % BLOCK
  }

  /** What follows a message of `len` bytes: one bit, zeros, and its bit length in 64 bits. */
  function Padding(len: nat): (p: seq<Byte>)
    ensures 9 <= |p| && (len + |p|) % BLOCK == 0
  {
    [0x80] + seq(ZeroCount(len), _ => 0) + BigEndian(8 * len, 8)
  }

  function Pad(msg: seq<Byte>): (p: seq<Byte>)
    ensures |p| % BLOCK == 0
  {
    msg + Padding(|msg|)
  }

  /** Section 5.2.1: a padded message as a sequence of blocks. */
  type Block = b: seq<Byte> | |b| == BLOCK witness seq(BLOCK, _ => 0)

  function Parse(p: seq<Byte>): (blocks: seq<Block>)
    ensures |blocks| == |p| / BLOCK
    ensures forall i :: 0 <= i < |blocks| ==> blocks[i] == p[BLOCK * i..BLOCK * i + BLOCK]
  {
    seq(|p| / BLOCK, i requires 0 <= i < |p| / BLOCK => p[BLOCK * i..BLOCK * i + BLOCK])
  }

  // ---- Section 6.2.2: the hash computation.

  /** Step 1: word `t` of the message schedule. */
  function W(block: Block, t: nat): Word
    requires t < 64
  {
    if t < 16 then WordOf(block[4 * t], block[4 * t + 1], block[4 * t + 2], block[4 * t + 3])
    else
      Add(Add(Add(SmallSigma1(W(block, t - 2)), W(block, t - 7)), SmallSigma0(W(block, t - 15))), W(block, t - 16))
  }

  /** One iteration of step 3, with round constant `k` and schedule word `w`. */
  function Round(s: State, k: Word, w: Word): State {
    var t1 := Add(Add(Add(Add(s.h, BigSigma1(s.e)), Ch(s.e, s.f, s.g)), k), w);
    var t2 := Add(BigSigma0(s.a), Maj(s.a, s.b, s.c));
    State(Add(t1, t2), s.a, s.b, s.c, Add(s.d, t1), s.e, s.f, s.g)
  }

  function Schedule(block: Block): (w: seq<Word>)
    ensures |w| == 64
  {
    seq(64, t requires 0 <= t < 64 => W(block, t))
  }

  /** Step 3: the working variables after one round per word of `w`, a prefix of the schedule. */
  function Rounds(s: State, w: seq<Word>): State
    requires |w| <= 64
  {
    if w == [] then s
    else
      var t := |w| - 1;
      Round(Rounds(s, w[..t]), K(t), w[t])
  }

  /** Step 4: the next intermediate hash value. */
  function Compress(s: State, block: Block): State {
    var v := Rounds(s, Schedule(block));
    State(Add(v.a, s.a), Add(v.b, s.b), Add(v.c, s.c), Add(v.d, s.d),
          Add(v.e, s.e), Add(v.f, s.f), Add(v.g, s.g), Add(v.h, s.h))
  }

  /** The intermediate hash value after all of `blocks`, starting from `s`. */
  function Fold(s: State, blocks: seq<Block>): State {
    FoldLeft(Compress, s, blocks)
  }

  function Digest(s: State): (d: seq<Byte>)
    ensures |d| == DIGEST
  {
    BigEndian(s.a, 4) + BigEndian(s.b, 4) + BigEndian(s.c, 4) + BigEndian(s.d, 4)
    + BigEndian(s.e, 4) + BigEndian(s.f, 4) + BigEndian(s.g, 4) + BigEndian(s.h, 4)
  }

  function Hash(msg: seq<Byte>): (d: seq<Byte>)
    ensures |d| == DIGEST
  {
    Digest(Fold(H0, Parse(Pad(msg))))
  }

  // ---- Properties of the standard's definitions.

  lemma ParseComposes(block: Block, rest: seq<Byte>)
    requires |rest| % BLOCK == 0
    ensures Parse(block + rest) == [block] + Parse(rest)
  {
    var p := block + rest;
    forall i | 1 <= i < |Parse(p)|
      ensures Parse(p)[i] == Parse(rest)[i - 1]
    {
      assert p[BLOCK * i..BLOCK * i + BLOCK] == rest[BLOCK * (i - 1)..BLOCK * (i - 1) + BLOCK];
    }
    assert Parse(p)[0] == block;
  }

  lemma {:induction false} BigEndianRoundTrip(x: nat, n: nat)
    requires x < Pow256(n)
    ensures FromBigEndian(BigEndian(x, n)) == x
  {
    if n == 0 {
    } else {
      BigEndianRoundTrip(x / 256, n - 1);
      assert BigEndian(x, n)[..n - 1] == BigEndian(x / 256, n - 1);
    }
  }

  /** Dropping the bits that do not fit `n` bytes first makes no difference to those bytes. */
  lemma {:induction false} BigEndianWraps(x: nat, n: nat)
    ensures Pow256(n) > 0 && BigEndian(x % Pow256(n), n) == BigEndian(x, n)
  {
    if n == 0 {
    } else {
      BigEndianWraps(x / 256, n - 1);
      DigitsModulo(x, Pow256(n - 1));
    }
  }

  lemma DigitsModulo(x: nat, p: nat)
    requires p > 0
    ensures x % (256 * p) % 256 == x % 256
    ensures x % (256 * p) / 256 == (x / 256) % p
  {
    var q, r := QuotientAndRemainder(x, 256 * p);
    DigitsOfSum(p, q, r);
  }

  lemma QuotientAndRemainder(x: nat, n: nat) returns (q: nat, r: nat)
    requires n > 0
    ensures x == n * q + r && r == x % n && r < n
  {
    q, r := x / n, x % n;
  }

  lemma DigitsOfSum(p: nat, q: nat, r: nat)
    requires p > 0 && r < 256 * p
    ensures ((256 * p) * q + r) % 256 == r % 256
    ensures ((256 * p) * q + r) / 256 % p == r / 256
  {
    var m := p * q;
    assert (256 * p) * q + r == 256 * m + r;
    var y := m + r / 256;
    assert (256 * m + r) / 256 == y && (256 * m + r) % 256 == r % 256;
    UniqueRemainder(p, q, r / 256, y / p, y % p);
  }

  lemma UniqueRemainder(p: nat, q: nat, r: nat, q': nat, r': nat)
    requires r < p && r' < p && p * q + r == p * q' + r'
    ensures q == q' && r == r'
  {
    if q < q' { MultipleGrows(p, q, q' - q); }
    if q' < q { MultipleGrows(p, q', q - q'); }
  }

  lemma MultipleGrows(p: nat, a: nat, d: nat)
    requires d >= 1
    ensures p * (a + d) >= p * a + p
  {
    assert p * (a + d) == p * a + p * d;
    assert p * d >= p;
  }

  function Pow256(n: nat): nat { if n == 0 then 1 else 256 * Pow256(n - 1) }

  /** The message inside a padded one, located by the length that the last eight bytes hold. */
  function Unpad(p: seq<Byte>): seq<Byte>
    requires |p| >= 8
  {
    var len := FromBigEndian(p[|p| - 8..]) / 8;
    if len <= |p| then p[..len] else []
  }

  lemma Pow256Eight()
    ensures Pow256(8) == 0x1_0000_0000_0000_0000
  {
  }

  lemma PaddingRoundTrip(msg: seq<Byte>)
    requires |msg| < MAX_BYTES
    ensures Unpad(Pad(msg)) == msg
  {
    hide BigEndian, FromBigEndian, Pow256;
    Pow256Eight();
    var p := Pad(msg);
    assert p[|p| - 8..] == BigEndian(8 * |msg|, 8);
    BigEndianRoundTrip(8 * |msg|, 8);
    assert p[..|msg|] == msg;
  }

  lemma PaddingIsInjective(m1: seq<Byte>, m2: seq<Byte>)
    requires |m1| < MAX_BYTES && |m2| < MAX_BYTES && m1 != m2
    ensures Pad(m1) != Pad(m2)
  {
    PaddingRoundTrip(m1);
    PaddingRoundTrip(m2);
  }

  lemma ZeroCountIsLeast(len: nat, n: nat)
    requires n % BLOCK == 0 && len + 9 <= n
    ensures len + 9 + ZeroCount(len) <= n
  {
    var r, q := len % BLOCK, len / BLOCK;
    assert len == BLOCK * q + r && n == BLOCK * (n / BLOCK);
    assert ZeroCount(len) == if r <= 55 then 55 - r else 119 - r;
  }

  /** A padded message has the least whole number of blocks with room for 0x80 and the length. */
  lemma PaddingIsLeast(msg: seq<Byte>, n: nat)
    requires n % BLOCK == 0 && |msg| + 9 <= n
    ensures |msg| + 9 <= |Pad(msg)| <= n && |Pad(msg)| % BLOCK == 0
  {
    ZeroCountIsLeast(|msg|, n);
  }
}
