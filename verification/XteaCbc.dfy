/**
 XTEA over bytes: words and blocks in network order, and cipher block chaining.
 */
module XteaCbc {
  import opened Common
  import opened Xtea

  type Bytes = seq<Byte>

  // ----- Exclusive or -------------------------------------------------------------------

  function Power(n: nat): nat {
    if n == 0 then 1 else 2 * Power(n - 1)
  }

  /** Exclusive or of the low `n` bits. */
  function XorBits(a: nat, b: nat, n: nat): (r: nat)
    ensures r < Power(n)
  {
    if n == 0 then 0 else (a % 2 + b % 2) % 2 + 2 * XorBits(a / 2, b / 2, n - 1)
  }

  lemma BitBack(a: nat, d: nat)
    requires d < 2
    ensures ((a % 2 + d) % 2 + d) % 2 == a % 2
  {
  }

  lemma HalfAndBit(low: nat, high: nat)
    requires low < 2
    ensures (low + 2 * high) % 2 == low && (low + 2 * high) / 2 == high
  {
  }

  lemma XorBitsStep(a: nat, b: nat, n: nat)
    requires n > 0
    ensures XorBits(a, b, n) % 2 == (a % 2 + b % 2) % 2
    ensures XorBits(a, b, n) / 2 == XorBits(a / 2, b / 2, n - 1)
  {
    HalfAndBit((a % 2 + b % 2) % 2, XorBits(a / 2, b / 2, n - 1));
  }

  lemma {:induction false} XorBitsUndone(a: nat, b: nat, n: nat)
    requires a < Power(n)
    ensures XorBits(XorBits(a, b, n), b, n) == a
    decreases n
  {
    if n > 0 {
      var r := XorBits(a, b, n);
      XorBitsStep(a, b, n);
      XorBitsStep(r, b, n);
      BitBack(a, b % 2);
      XorBitsUndone(a / 2, b / 2, n - 1);
      var x := XorBits(r, b, n);
      assert x % 2 == a % 2 && x / 2 == a / 2;
    }
  }

  lemma EightBits()
    ensures Power(8) == 256
  {
    assert Power(4) == 16;
  }

  function XorByte(a: Byte, b: Byte): Byte {
    EightBits();
    XorBits(a, b, 8)
  }

  lemma ByteUndoesItself(a: Byte, b: Byte)
    ensures XorByte(XorByte(a, b), b) == a
  {
    EightBits();
    XorBitsUndone(a, b, 8);
  }

  // ----- Words and blocks --------------------------------------------------------------

  function BigEndian(a: Byte, b: Byte, c: Byte, d: Byte): Word {
    a * 0x100_0000 + b * 0x1_0000 + c * 0x100 + d
  }

  function PutWord(w: Word): (b: Bytes)
    ensures |b| == 4
  {
    [w / 0x100_0000, w / 0x1_0000 % 256, w / 0x100 % 256, w % 256]
  }

  lemma WordReadsBack(w: Word)
    ensures var b := PutWord(w); BigEndian(b[0], b[1], b[2], b[3]) == w
  {
    var x := w / 0x100;
    assert w / 0x1_0000 == x / 0x100 && w / 0x100_0000 == x / 0x100 / 0x100;
  }

  lemma BytesReadBack(a: Byte, b: Byte, c: Byte, d: Byte)
    ensures PutWord(BigEndian(a, b, c, d)) == [a, b, c, d]
  {
    var w := BigEndian(a, b, c, d);
    assert w / 0x100 == a * 0x1_0000 + b * 0x100 + c;
    assert w / 0x1_0000 == a * 0x100 + b;
    assert w / 0x100_0000 == a;
  }

  const Half := 8

  function BlockOf(b: Bytes): Block
    requires |b| == Half
  {
    Block(BigEndian(b[0], b[1], b[2], b[3]), BigEndian(b[4], b[5], b[6], b[7]))
  }

  function BytesOf(b: Block): (r: Bytes)
    ensures |r| == Half
  {
    PutWord(b.first) + PutWord(b.second)
  }

  lemma BlockReadsBack(b: Block)
    ensures BlockOf(BytesOf(b)) == b
  {
    WordReadsBack(b.first);
    WordReadsBack(b.second);
  }

  lemma BlockBytesReadBack(b: Bytes)
    requires |b| == Half
    ensures BytesOf(BlockOf(b)) == b
  {
    BytesReadBack(b[0], b[1], b[2], b[3]);
    BytesReadBack(b[4], b[5], b[6], b[7]);
  }

  // ----- Cipher block chaining ------------------------------------------------------------

  function Xor(a: Bytes, b: Bytes): (r: Bytes)
    requires |a| == |b|
    ensures |r| == |a|
  {
    if a == [] then [] else [XorByte(a[0], b[0])] + Xor(a[1..], b[1..])
  }

  lemma {:induction false} XorUndoesItself(a: Bytes, b: Bytes)
    requires |a| == |b|
    ensures Xor(Xor(a, b), b) == a
  {
    if a != [] {
      XorUndoesItself(a[1..], b[1..]);
      ByteUndoesItself(a[0], b[0]);
      assert Xor(a, b)[1..] == Xor(a[1..], b[1..]);
    }
  }

  // ----- Chaining ---------------------------------------------------------------------------

  type Octet = b: Bytes | |b| == Half witness [0, 0, 0, 0, 0, 0, 0, 0]

  function EncryptedBytes(mix: Mixer, rounds: nat, b: Octet): Octet {
    BytesOf(Encrypted(mix, BlockOf(b), rounds))
  }

  function DecryptedBytes(mix: Mixer, rounds: nat, b: Octet): Octet {
    BytesOf(Decrypted(mix, BlockOf(b), rounds))
  }

  lemma BlockIsUndone(mix: Mixer, rounds: nat, b: Octet)
    ensures DecryptedBytes(mix, rounds, EncryptedBytes(mix, rounds, b)) == b
  {
    BlockReadsBack(Encrypted(mix, BlockOf(b), rounds));
    RoundsAreUndone(mix, BlockOf(b), rounds);
    BlockBytesReadBack(b);
  }

  /** What one block becomes when encrypted, or decrypted, chained to `previous`. */
  function Linked(mix: Mixer, rounds: nat, previous: Octet, b: Octet, decrypt: bool): Octet {
    if decrypt then Xor(DecryptedBytes(mix, rounds, b), previous) else EncryptedBytes(mix, rounds, Xor(b, previous))
  }

  lemma LinkIsUndone(mix: Mixer, rounds: nat, previous: Octet, b: Octet)
    ensures Linked(mix, rounds, previous, Linked(mix, rounds, previous, b, false), true) == b
  {
    BlockIsUndone(mix, rounds, Xor(b, previous));
    XorUndoesItself(b, previous);
  }

  /** Each block is chained to the encrypted form of the one before. */
  function Chained(mix: Mixer, rounds: nat, previous: Octet, bs: seq<Octet>, decrypt: bool): (r: seq<Octet>)
    ensures |r| == |bs|
    decreases |bs|
  {
    if bs == [] then []
    else
      var c := Linked(mix, rounds, previous, bs[0], decrypt);
      [c] + Chained(mix, rounds, if decrypt then bs[0] else c, bs[1..], decrypt)
  }

  /** Chaining is undone over any number of blocks. */
  lemma {:induction false} ChainIsUndone(mix: Mixer, rounds: nat, previous: Octet, bs: seq<Octet>)
    ensures Chained(mix, rounds, previous, Chained(mix, rounds, previous, bs, false), true) == bs
    decreases |bs|
  {
    if bs != [] {
      var c := Linked(mix, rounds, previous, bs[0], false);
      LinkIsUndone(mix, rounds, previous, bs[0]);
      ChainIsUndone(mix, rounds, c, bs[1..]);
      var r := Chained(mix, rounds, previous, bs, false);
      assert r[0] == c && r[1..] == Chained(mix, rounds, c, bs[1..], false);
      assert [bs[0]] + bs[1..] == bs;
    }
  }

  // ----- Bytes in blocks ---------------------------------------------------------------------

  function Joined(bs: seq<Octet>): (b: Bytes)
    ensures |b| == Half * |bs|
  {
    if bs == [] then [] else bs[0] + Joined(bs[1..])
  }

  function Blocks(b: Bytes): (bs: seq<Octet>)
    requires |b| % Half == 0
    ensures |b| == Half * |bs|
  {
    if b == [] then [] else [b[..Half]] + Blocks(b[Half..])
  }

  lemma {:induction false} BlocksJoin(b: Bytes)
    requires |b| % Half == 0
    ensures Joined(Blocks(b)) == b
    decreases |b|
  {
    if b != [] {
      BlocksJoin(b[Half..]);
      assert Blocks(b)[1..] == Blocks(b[Half..]);
      assert b[..Half] + b[Half..] == b;
    }
  }

  lemma {:induction false} JoinBlocks(bs: seq<Octet>)
    ensures |Joined(bs)| % Half == 0 && Blocks(Joined(bs)) == bs
    decreases |bs|
  {
    if bs != [] {
      JoinBlocks(bs[1..]);
      var b := Joined(bs);
      assert b[..Half] == bs[0] && b[Half..] == Joined(bs[1..]);
      assert [bs[0]] + bs[1..] == bs;
    }
  }

  /** The number of rounds depends on the first word of the initial block. */
  function Rounds(iv: Octet): Word {
    32 + BigEndian(iv[3], iv[2], iv[1], iv[0]) % 5 * 8
  }

  function Cbc(mix: Mixer, iv: Octet, b: Bytes, decrypt: bool): (r: Bytes)
    requires |b| % Half == 0
    ensures |r| == |b|
  {
    Joined(Chained(mix, Rounds(iv), iv, Blocks(b), decrypt))
  }

  /** Decryption undoes encryption of any whole number of blocks. */
  lemma CbcIsUndone(mix: Mixer, iv: Octet, b: Bytes)
    requires |b| % Half == 0
    ensures Cbc(mix, iv, Cbc(mix, iv, b, false), true) == b
  {
    JoinBlocks(Chained(mix, Rounds(iv), iv, Blocks(b), false));
    ChainIsUndone(mix, Rounds(iv), iv, Blocks(b));
    BlocksJoin(b);
  }

  const KeySize := 16

  /** Four words in network order. */
  function KeyOf(key: Bytes): Key
    requires |key| == KeySize
  {
    Key(BigEndian(key[0], key[1], key[2], key[3]), BigEndian(key[4], key[5], key[6], key[7]),
        BigEndian(key[8], key[9], key[10], key[11]), BigEndian(key[12], key[13], key[14], key[15]))
  }

  /** So under every key. */
  lemma KeyedCbcIsUndone(key: Bytes, iv: Octet, b: Bytes)
    requires |key| == KeySize && |b| % Half == 0
    ensures Cbc(MixerOf(KeyOf(key)), iv, Cbc(MixerOf(KeyOf(key)), iv, b, false), true) == b
  {
    CbcIsUndone(MixerOf(KeyOf(key)), iv, b);
  }

  method XteaCBC(input: Bytes, key: Bytes, iv: Bytes, decrypt: bool) returns (out: Option<Bytes>)
    ensures |input| % Half != 0 || |key| != KeySize || |iv| != Half ==> out == None
    ensures |input| % Half == 0 && |key| == KeySize && |iv| == Half ==>
              out == Some(Cbc(MixerOf(KeyOf(key)), iv, input, decrypt))
  {
    if |input| % Half != 0 || |key| != KeySize || |iv| != Half {
      return None;
    }
    var mix := MixerOf(KeyOf(key));
    var blocks := Chain(mix, Rounds(iv), iv, Blocks(input), decrypt);
    return Some(Joined(blocks));
  }

  lemma ChainedOn(mix: Mixer, rounds: nat, previous: Octet, bs: seq<Octet>, i: nat, decrypt: bool, r: seq<Octet>, c: Octet)
    requires i < |bs| && c == Linked(mix, rounds, previous, bs[i], decrypt)
    ensures r + Chained(mix, rounds, previous, bs[i..], decrypt) ==
            r + [c] + Chained(mix, rounds, if decrypt then bs[i] else c, bs[i + 1..], decrypt)
  {
    var rest := bs[i..];
    assert rest[0] == bs[i] && rest[1..] == bs[i + 1..];
    var tail := Chained(mix, rounds, if decrypt then bs[i] else c, bs[i + 1..], decrypt);
    assert Chained(mix, rounds, previous, rest, decrypt) == [c] + tail;
    Regrouped(r, [c], tail);
  }

  lemma Regrouped<T>(a: seq<T>, b: seq<T>, c: seq<T>)
    ensures a + (b + c) == a + b + c
  {
  }

  method Chain(mix: Mixer, rounds: Word, iv: Octet, bs: seq<Octet>, decrypt: bool) returns (r: seq<Octet>)
    ensures r == Chained(mix, rounds, iv, bs, decrypt)
  {
    var previous: Octet := iv;
    r := [];
    assert bs[0..] == bs;
    for i := 0 to |bs|
      invariant r + Chained(mix, rounds, previous, bs[i..], decrypt) == Chained(mix, rounds, iv, bs, decrypt)
    {
      var c: Octet;
      if decrypt {
        var decoded := XteaBlock(mix, BlockOf(bs[i]), rounds, true);
        c := Xor(BytesOf(decoded), previous);
      } else {
        var encoded := XteaBlock(mix, BlockOf(Xor(bs[i], previous)), rounds, false);
        c := BytesOf(encoded);
      }
      ChainedOn(mix, rounds, previous, bs, i, decrypt, r, c);
      r := r + [c];
      previous := if decrypt then bs[i] else c;
    }
    assert bs[|bs|..] == [];
  }

  // ----- What chaining is, and known answers ------------------------------------------------

  /**
   Every block on its own: encrypted after an exclusive or with the ciphertext of the one
   before, and decrypted before one with it (section 6.2 of NIST SP 800-38A).
   */
  lemma {:induction false} EachBlockIsChained(mix: Mixer, rounds: nat, iv: Octet, bs: seq<Octet>, k: nat)
    requires k < |bs|
    ensures Chained(mix, rounds, iv, bs, false)[k] ==
            EncryptedBytes(mix, rounds, Xor(bs[k], if k == 0 then iv else Chained(mix, rounds, iv, bs, false)[k - 1]))
    ensures Chained(mix, rounds, iv, bs, true)[k] ==
            Xor(DecryptedBytes(mix, rounds, bs[k]), if k == 0 then iv else bs[k - 1])
    decreases k
  {
    if k > 0 {
      EachBlockIsChained(mix, rounds, Linked(mix, rounds, iv, bs[0], false), bs[1..], k - 1);
      EachBlockIsChained(mix, rounds, bs[0], bs[1..], k - 1);
    }
  }

  /** Bit by bit, the exclusive or of two bytes. */
  function Bit(a: nat, k: nat): nat {
    if k == 0 then a % 2 else Bit(a / 2, k - 1)
  }

  lemma {:induction false} XorIsBitwise(a: nat, b: nat, n: nat, k: nat)
    requires k < n
    ensures Bit(XorBits(a, b, n), k) == if Bit(a, k) == Bit(b, k) then 0 else 1
    ensures Bit(a, k) < 2
    decreases k
  {
    XorBitsStep(a, b, n);
    if k > 0 {
      XorIsBitwise(a / 2, b / 2, n - 1, k - 1);
      XorIsBitwise(b / 2, a / 2, n - 1, k - 1);
    }
  }

  /** Words are in network order. */
  lemma NetworkOrder()
    ensures BigEndian(0x78, 0x23, 0x99, 0xbd) == 0x782399bd
    ensures PutWord(0xd62d3557) == [0xd6, 0x2d, 0x35, 0x57]
    ensures BlockOf([0x00, 0x11, 0x22, 0x33, 0x44, 0x55, 0x66, 0x77]) == Block(0x00112233, 0x44556677)
  {
  }

  /** Between 32 and 64 rounds, by the initial block's first word, lowest byte first. */
  lemma RoundsAreKnown(b: Byte, c: Byte)
    requires b < 5
    ensures Rounds([b, 0, 0, 0, c, c, c, c]) == 32 + 8 * b
    ensures Rounds([0, 1, 0, 0, c, c, c, c]) == 40 && Rounds([0, 0, 0, 4, c, c, c, c]) == 64
  {
  }
}
