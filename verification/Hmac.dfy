/** The hand-written HMAC of src/services/webhooks.rs, proved against FIPS 198-1, and the
    hexadecimal signature that webhook deliveries carry. */
module Hmac {
  import opened Fips180Constants
  import opened Fips180
  import F = Fips198
  import S = Sha256

  /** The key, or its digest when it is longer than a block, followed by zeros. */
  method PadKey(key: seq<Byte>) returns (k: array<Byte>)
    ensures fresh(k) && k[..] == F.BlockKey(key)
  {
    hide Hash;
    k := new Byte[64](_ => 0);
    if |key| > 64 {
      var h := S.Sha256(key);
      forall i | 0 <= i < 32 { k[i] := h[i]; }
    } else {
      forall i | 0 <= i < |key| { k[i] := key[i]; }
    }
  }

  /** A block of the `start` byte, exclusive-ored in place with the key. */
  method PadBlock(k: array<Byte>, start: Byte) returns (pad: array<Byte>)
    requires k.Length == 64
    ensures fresh(pad) && pad[..] == F.XorPad(k[..], start)
  {
    hide F.XorByte;
    pad := new Byte[64](_ => start);
    for i := 0 to 64
      invariant forall j :: 0 <= j < 64 ==> pad[j] == if j < i then F.XorByte(start, k[j]) else start
    {
      pad[i] := F.XorByte(pad[i], k[i]);
    }
  }

  method Mac(key: seq<Byte>, msg: seq<Byte>) returns (mac: seq<Byte>)
    ensures mac == F.Mac(key, msg)
  {
    hide Hash, F.BlockKey, F.XorPad;
    var k := PadKey(key);
    var ipad := PadBlock(k, 0x36);
    var opad := PadBlock(k, 0x5c);
    var inner := ipad[..] + msg;
    var innerHash := S.Sha256(inner);
    var outer := opad[..] + innerHash;
    mac := S.Sha256(outer);
  }

  function Digit(n: nat): (c: char)
    requires n < 16
    ensures '0' <= c <= '9' || 'a' <= c <= 'f'
    ensures Value(c) == n
  {
    if n < 10 then '0' + n as char else 'a' + (n - 10) as char
  }

  function Value(c: char): nat {
    if '0' <= c <= '9' then (c - '0') as nat
    else if 'a' <= c <= 'f' then 10 + (c - 'a') as nat
    else 0
  }

  lemma DigitsAreHexadecimal(n: nat)
    requires n < 16
    ensures Digit(n) == "0123456789abcdef"[n]
  {
  }

  /** The bytes that a string of digit pairs stands for. */
  function Decode(s: string): seq<nat> {
    if |s| < 2 then [] else Decode(s[..|s| - 2]) + [16 * Value(s[|s| - 2]) + Value(s[|s| - 1])]
  }

  predicate IsLowerHex(s: string) {
    forall i :: 0 <= i < |s| ==> '0' <= s[i] <= '9' || 'a' <= s[i] <= 'f'
  }

  /** Two digits per byte of the MAC, most significant first. */
  method Hex(key: seq<Byte>, msg: seq<Byte>) returns (s: string)
    ensures |s| == 64 && IsLowerHex(s)
    ensures Decode(s) == F.Mac(key, msg)
  {
    hide F.Mac, Digit, Value;
    var mac := Mac(key, msg);
    s := "";
    for i := 0 to |mac|
      invariant |s| == 2 * i && IsLowerHex(s)
      invariant Decode(s) == mac[..i]
    {
      var pair := [Digit(mac[i] / 16), Digit(mac[i] % 16)];
      assert (s + pair)[..|s|] == s;
      s := s + pair;
    }
    assert mac[..|mac|] == mac;
  }
}
