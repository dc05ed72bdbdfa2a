/** The hand-written SHA-256 of src/services/webhooks.rs: arrays updated in place by loops,
    proved equal to the definitions of FIPS 180-4 for every input. */
module Sha256 {
  import opened Fips180Constants
  import opened Fips180
  import B = Fips180Bits
  import Folds

  /** The eight words of an array as the standard's working variables. */
  ghost function StateOf(v: array<Word>): State
    requires v.Length == 8
    reads v
  {
    State(v[0], v[1], v[2], v[3], v[4], v[5], v[6], v[7])
  }

  lemma SumCommutes(x: Word, y: Word)
    ensures Add(x, y) == Add(y, x)
  {
    hide ToBits, OfBits;
  }

  lemma SumAssociates(x: Word, y: Word, z: Word)
    ensures Add(Add(x, y), z) == Add(x, Add(y, z))
  {
    B.AddBits(x, y);
    B.AddBits(Add(x, y), z);
    B.AddBits(y, z);
    B.AddBits(x, Add(y, z));
    B.SumAssociates(ToBits(x), ToBits(y), ToBits(z));
    hide Add, ToBits, OfBits, B.Sum;
  }

  /** The code and the standard order the terms of a schedule word differently. */
  lemma SumReversed(a: Word, b: Word, c: Word, d: Word)
    ensures Add(Add(Add(a, b), c), d) == Add(Add(Add(d, c), b), a)
  {
    hide Add;
    SumCommutes(Add(Add(a, b), c), d);
    SumCommutes(Add(a, b), c);
    SumCommutes(a, b);
    SumAssociates(c, b, a);
    SumAssociates(d, c, Add(b, a));
    SumAssociates(Add(d, c), b, a);
  }

  lemma FirstWords(block: Block, t: nat)
    requires t < 16
    ensures W(block, t) == WordOf(block[4 * t], block[4 * t + 1], block[4 * t + 2], block[4 * t + 3])
  {
  }

  lemma Recurrence(block: Block, t: nat)
    requires 16 <= t < 64
    ensures W(block, t) == Add(Add(Add(W(block, t - 16), SmallSigma0(W(block, t - 15))), W(block, t - 7)),
                               SmallSigma1(W(block, t - 2)))
  {
    hide Add, RotateRight, ShiftRight, Xor;
    var w16, w7, w15, w2 := W(block, t - 16), W(block, t - 7), W(block, t - 15), W(block, t - 2);
    SumReversed(w16, SmallSigma0(w15), w7, SmallSigma1(w2));
  }

  /** Appends 0x80, zeros up to 56 modulo 64, and the 64-bit length, which wraps as a u64 does. */
  method PadMessage(data: seq<Byte>) returns (msg: seq<Byte>)
    ensures msg == Pad(data)
  {
    hide BigEndian, ZeroCount;
    msg := data;
    var bitLen := (|data| * 8) % 0x1_0000_0000_0000_0000;
    msg := msg + [0x80];
    ghost var zeros := 0;
    while |msg| % 64 != 56
      invariant msg == data + [0x80] + Zeros(zeros)
      invariant zeros <= ZeroCount(|data|)
      decreases ZeroCount(|data|) - zeros
    {
      if zeros == ZeroCount(|data|) { StopsAtZeroCount(|data|, zeros); }
      msg := msg + [0];
      zeros := zeros + 1;
    }
    StopsAtZeroCount(|data|, zeros);
    LengthFieldWraps(|data|);
    msg := msg + BigEndian(bitLen, 8);
  }

  ghost function Zeros(n: nat): seq<Byte> { seq(n, _ => 0) }

  /** The loop's exit test first succeeds at the number of zeros the standard prescribes. */
  lemma StopsAtZeroCount(len: nat, k: nat)
    requires k <= ZeroCount(len)
    ensures (len + 1 + k) % 64 == 56 <==> k == ZeroCount(len)
  {
    var r := len % 64;
    ZeroCountByRemainder(len);
    ShiftOfRemainder(len / 64, r, 1 + k);
    assert len == 64 * (len / 64) + r;
  }

  lemma ZeroCountByRemainder(len: nat)
    ensures ZeroCount(len) == if len % 64 <= 55 then 55 - len % 64 else 119 - len % 64
  {
    if len % 64 <= 55 {
      RemainderOf(1, 55 - len % 64, 119 - len % 64);
    } else {
      RemainderOf(0, 119 - len % 64, 119 - len % 64);
    }
  }

  lemma RemainderOf(q: nat, r: nat, x: nat)
    requires r < 64 && x == 64 * q + r
    ensures x % 64 == r
  {
  }

  /** Adding `d`, which is less than two blocks with the remainder, to a number of `q` blocks and `r`. */
  lemma ShiftOfRemainder(q: nat, r: nat, d: nat)
    requires r < 64 && r + d < 128
    ensures (64 * q + r + d) % 64 == if r + d < 64 then r + d else r + d - 64
  {
    if r + d < 64 {
      RemainderOf(q, r + d, 64 * q + r + d);
    } else {
      RemainderOf(q + 1, r + d - 64, 64 * q + r + d);
    }
  }

  lemma LengthFieldWraps(len: nat)
    ensures BigEndian((len * 8) % 0x1_0000_0000_0000_0000, 8) == BigEndian(8 * len, 8)
  {
    hide BigEndian, Pow256;
    BigEndianWraps(8 * len, 8);
    Pow256Eight();
  }

  /** The message schedule of one chunk. */
  method Expand(chunk: Block) returns (w: array<Word>)
    ensures fresh(w) && w[..] == Schedule(chunk)
  {
    hide W, Add, RotateRight, ShiftRight, Xor;
    w := new Word[64](_ => 0);
    for i := 0 to 16
      invariant forall t :: 0 <= t < i ==> w[t] == W(chunk, t)
    {
      FirstWords(chunk, i);
      w[i] := WordOf(chunk[4 * i], chunk[4 * i + 1], chunk[4 * i + 2], chunk[4 * i + 3]);
    }
    for i := 16 to 64
      invariant forall t :: 0 <= t < i ==> w[t] == W(chunk, t)
    {
      var s0 := Xor(Xor(RotateRight(w[i - 15], 7), RotateRight(w[i - 15], 18)), ShiftRight(w[i - 15], 3));
      var s1 := Xor(Xor(RotateRight(w[i - 2], 17), RotateRight(w[i - 2], 19)), ShiftRight(w[i - 2], 10));
      Recurrence(chunk, i);
      w[i] := Add(Add(Add(w[i - 16], s0), w[i - 7]), s1);
    }
  }

  /** The 64 rounds, each shifting the eight variables along the array. */
  method RunRounds(v: array<Word>, w: array<Word>)
    requires v.Length == 8 && w.Length == 64 && v != w
    modifies v
    ensures StateOf(v) == Rounds(old(StateOf(v)), w[..])
  {
    hide Add, Xor, And, Not, RotateRight, K;
    ghost var start := StateOf(v);
    for i := 0 to 64
      invariant StateOf(v) == Rounds(start, w[..i])
    {
      var s1 := Xor(Xor(RotateRight(v[4], 6), RotateRight(v[4], 11)), RotateRight(v[4], 25));
      var ch := Xor(And(v[4], v[5]), And(Not(v[4]), v[6]));
      var t1 := Add(Add(Add(Add(v[7], s1), ch), K(i)), w[i]);
      var s0 := Xor(Xor(RotateRight(v[0], 2), RotateRight(v[0], 13)), RotateRight(v[0], 22));
      var maj := Xor(Xor(And(v[0], v[1]), And(v[0], v[2])), And(v[1], v[2]));
      var t2 := Add(s0, maj);
      v[7] := v[6];
      v[6] := v[5];
      v[5] := v[4];
      v[4] := Add(v[3], t1);
      v[3] := v[2];
      v[2] := v[1];
      v[1] := v[0];
      v[0] := Add(t1, t2);
      assert w[..i + 1][..i] == w[..i];
    }
    assert w[..64] == w[..];
  }

  /** One chunk: expand, run the rounds on a copy of `h`, and feed the result forward into `h`. */
  method CompressInPlace(h: array<Word>, chunk: Block)
    requires h.Length == 8
    modifies h
    ensures StateOf(h) == Compress(old(StateOf(h)), chunk)
  {
    hide Schedule, Rounds, Add;
    var w := Expand(chunk);
    var v := new Word[8](i requires 0 <= i < 8 reads h => h[i]);
    assert v[..] == h[..];
    RunRounds(v, w);
    for i := 0 to 8
      invariant forall j :: 0 <= j < 8 ==> h[j] == if j < i then Add(v[j], old(h[j])) else old(h[j])
      invariant StateOf(v) == Rounds(old(StateOf(h)), Schedule(chunk))
    {
      SumCommutes(h[i], v[i]);
      h[i] := Add(h[i], v[i]);
    }
  }

  /** The eight words as 32 bytes, most significant byte first. */
  method Serialize(h: array<Word>) returns (digest: seq<Byte>)
    requires h.Length == 8
    ensures digest == Digest(StateOf(h))
  {
    hide BigEndian;
    var out := new Byte[32](_ => 0);
    ghost var words := h[..];
    for i := 0 to 8
      invariant h[..] == words
      invariant out[..4 * i] == Bytes(words[..i])
    {
      var word := BigEndian(h[i], 4);
      out[4 * i], out[4 * i + 1], out[4 * i + 2], out[4 * i + 3] := word[0], word[1], word[2], word[3];
      assert words[..i + 1][..i] == words[..i];
      assert out[..4 * i + 4] == out[..4 * i] + word;
    }
    digest := out[..];
    DigestIsBytes(words);
    assert out[..32] == out[..] && words[..8] == words;
  }

  ghost function Bytes(words: seq<Word>): seq<Byte> {
    if words == [] then [] else Bytes(words[..|words| - 1]) + BigEndian(words[|words| - 1], 4)
  }

  lemma DigestIsBytes(w: seq<Word>)
    requires |w| == 8
    ensures Bytes(w) == Digest(State(w[0], w[1], w[2], w[3], w[4], w[5], w[6], w[7]))
  {
    hide BigEndian, Bytes;
    assert w[..8] == w;
    FirstWord(w);
    LastWord(w, 1); LastWord(w, 2); LastWord(w, 3); LastWord(w, 4);
    LastWord(w, 5); LastWord(w, 6); LastWord(w, 7);
  }

  lemma FirstWord(w: seq<Word>)
    requires w != []
    ensures Bytes(w[..1]) == BigEndian(w[0], 4)
  {
    hide BigEndian;
    assert w[..1][..0] == [] && w[..1][0] == w[0];
    assert [] + BigEndian(w[0], 4) == BigEndian(w[0], 4);
  }

  lemma LastWord(w: seq<Word>, n: nat)
    requires n < |w|
    ensures Bytes(w[..n + 1]) == Bytes(w[..n]) + BigEndian(w[n], 4)
  {
    assert w[..n + 1][..n] == w[..n];
  }

  method Sha256(data: seq<Byte>) returns (digest: seq<Byte>)
    ensures digest == Hash(data)
  {
    hide Compress, Pad, BigEndian;
    var h := new Word[8] [0x6a09e667, 0xbb67ae85, 0x3c6ef372, 0xa54ff53a,
                          0x510e527f, 0x9b05688c, 0x1f83d9ab, 0x5be0cd19];
    var msg := PadMessage(data);
    ghost var blocks := Parse(msg);
    for c := 0 to |msg| / 64
      invariant fresh(h) && h.Length == 8
      invariant StateOf(h) == Fold(H0, blocks[..c])
    {
      CompressInPlace(h, msg[64 * c..64 * c + 64]);
      assert blocks[..c + 1][..c] == blocks[..c];
    }
    assert blocks[..|blocks|] == blocks;
    digest := Serialize(h);
  }
}
