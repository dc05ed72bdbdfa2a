/** HMAC-SHA-256 as section 4 of FIPS 198-1 defines it, and the laws the definition gives. */
module Fips198 {
  import opened Fips180Constants
  import opened Fips180
  import opened Folds

  const IPAD: Byte := 0x36
  const OPAD: Byte := 0x5c

  function XorByte(x: Byte, y: Byte): Byte { OfByteBits((x as bv8) ^ (y as bv8)) }
  function OfByteBits(b: bv8): Byte { b as nat }

  /** Steps 1 to 3: the key brought to the length of a block. */
  function BlockKey(key: seq<Byte>): Block {
    hide Hash;
    if |key| > BLOCK then Hash(key) + seq(BLOCK - DIGEST, _ => 0)
    else key + seq(BLOCK - |key|, _ => 0)
  }

  function XorPad(block: Block, pad: Byte): Block {
    seq(BLOCK, i requires 0 <= i < BLOCK => XorByte(pad, block[i]))
  }

  /** Steps 4 to 9. */
  function Mac(key: seq<Byte>, text: seq<Byte>): (mac: seq<Byte>)
    ensures |mac| == DIGEST
  {
    var k0 := BlockKey(key);
    Hash(XorPad(k0, OPAD) + Hash(XorPad(k0, IPAD) + text))
  }

  /** A key longer than a block acts exactly as its digest does. */
  lemma LongKeyActsAsItsDigest(key: seq<Byte>, text: seq<Byte>)
    requires |key| > BLOCK
    ensures Mac(key, text) == Mac(Hash(key), text)
  {
    hide Hash;
    assert BlockKey(key) == BlockKey(Hash(key));
  }

  /** A key shorter than a block acts as if it ended with zeros. */
  lemma ZerosExtendTheKey(key: seq<Byte>, text: seq<Byte>)
    requires |key| < BLOCK
    ensures Mac(key + [0], text) == Mac(key, text)
  {
    hide Hash;
    assert BlockKey(key + [0]) == BlockKey(key);
  }

  /** A key of exactly a block is used as it is. */
  lemma BlockIsItsOwnKey(key: Block)
    ensures BlockKey(key) == key
  {
    hide Hash;
  }

  /** The hash state after one block of a message, from which any continuation can be hashed. */
  function Midstate(block: Block): State { Compress(H0, block) }

  /** Finishes a hash of which `done` bytes have been folded into `s` and `rest` remain. */
  function Resume(s: State, done: nat, rest: seq<Byte>): seq<Byte> {
    Digest(Fold(s, Parse(rest + Padding(done + |rest|))))
  }

  lemma HashResumesAfterBlock(block: Block, rest: seq<Byte>)
    ensures Hash(block + rest) == Resume(Midstate(block), BLOCK, rest)
  {
    hide Compress, Padding, Digest, H0;
    var tail := rest + Padding(BLOCK + |rest|);
    assert Pad(block + rest) == block + tail;
    ParseComposes(block, tail);
    FoldLeftComposes(Compress, H0, [block], Parse(tail));
    FoldOne(H0, block);
  }

  lemma FoldOne(s: State, block: Block)
    ensures Fold(s, [block]) == Compress(s, block)
  {
    hide Compress;
    assert [block][..0] == [];
    assert FoldLeft(Compress, s, []) == s;
  }

  /** Both hashes of a MAC can start from states computed from the key alone. */
  lemma MacFromMidstates(key: seq<Byte>, text: seq<Byte>)
    ensures var k0 := BlockKey(key);
            var inner := Resume(Midstate(XorPad(k0, IPAD)), BLOCK, text);
            Mac(key, text) == Resume(Midstate(XorPad(k0, OPAD)), BLOCK, inner)
  {
    hide Hash, Resume, Midstate;
    var k0 := BlockKey(key);
    HashResumesAfterBlock(XorPad(k0, IPAD), text);
    HashResumesAfterBlock(XorPad(k0, OPAD), Hash(XorPad(k0, IPAD) + text));
  }
}
