/**
 The encrypted payload of the device SDK: a header and a deflated body under
 chained XTEA, in an envelope padded and sealed with AES.

 AES-CBC, zlib and the chained XTEA are parameters of the envelope: all that is used
 of them is that sealing keeps whole blocks and is undone, that chaining does too, and
 that inflating stops where the stream ends. The XTEA of the program is shown to be one.
 */
module SdkPayload {
  import opened Common
  import opened Xtea
  import opened XteaCbc

  // ----- The envelope -----------------------------------------------------------------------

  const MaxPayload := 0x100_0000
  const SealBlock := 16

  /** AES-CBC, XTEA under a nonce, and zlib; `inflate` reads at most so many bytes. */
  datatype Codec = Codec(
    seal: Bytes -> Bytes, unseal: Bytes -> Bytes,
    chain: (Bytes, Bytes) -> Bytes, unchain: (Bytes, Bytes) -> Bytes,
    deflate: Bytes -> Bytes, inflate: (Bytes, nat) -> Option<Bytes>)

  const NonceSize := 4

  ghost predicate Chains(c: Codec) {
    && (forall nonce, b {:trigger c.chain(nonce, b)} :: |nonce| == NonceSize && |b| % Half == 0 ==>
          |c.chain(nonce, b)| == |b| && c.unchain(nonce, c.chain(nonce, b)) == b)
    && (forall nonce, b {:trigger c.unchain(nonce, b)} :: |nonce| == NonceSize && |b| % Half == 0 ==> |c.unchain(nonce, b)| == |b|)
  }

  /** Sealing and deflating are undone. */
  ghost predicate Outer(c: Codec) {
    && (forall b :: |c.seal(b)| == |b|)
    && (forall b :: |b| % SealBlock == 0 ==> c.unseal(c.seal(b)) == b)
    && (forall b, tail, limit {:trigger c.inflate(c.deflate(b) + tail, limit)} :: |b| < limit ==> c.inflate(c.deflate(b) + tail, limit) == Some(b))
  }

  ghost predicate Inverses(c: Codec) {
    Chains(c) && Outer(c)
  }

  function LittleEndian(n: nat): (b: Bytes)
    requires n < Modulus
    ensures |b| == 4
  {
    [n % 256, n / 0x100 % 256, n / 0x1_0000 % 256, n / 0x100_0000]
  }

  function FromLittleEndian(b: Bytes): nat
    requires |b| >= 4
  {
    BigEndian(b[3], b[2], b[1], b[0])
  }

  function Zeros(n: nat): (b: Bytes)
    ensures |b| == n
  {
    if n == 0 then [] else [0] + Zeros(n - 1)
  }

  /** The header and the deflated body, padded with zeros to whole blocks. */
  function Inner(c: Codec, payload: Bytes, head: Byte): (r: Bytes)
    requires |payload| <= MaxPayload
    ensures |r| % Half == 0 && |r| >= Half + 5
  {
    var body := [head / 4 * 4 + 1] + LittleEndian(|payload|) + c.deflate(payload);
    body + Zeros(8 + (8 - |body| % 8) % 8)
  }

  function Envelope(c: Codec, inner: Bytes, nonce: Bytes): Bytes {
    var x := c.chain(nonce, inner);
    [if x == [] then 0 else XorByte(x[0], 3)] + x + nonce
  }

  /** `n` bytes of padding: noise, and the count last. */
  function Padding(noise: Bytes, n: nat): (r: Bytes)
    requires 1 <= n <= SealBlock <= |noise|
    ensures |r| == n && r[n - 1] == n
  {
    noise[..n - 1] + [n]
  }

  /** `head` and `noise` are random. */
  function Encrypt(c: Codec, payload: Bytes, nonce: Bytes, head: Byte, noise: Bytes): Option<Bytes>
    requires |noise| >= SealBlock
  {
    if |payload| > MaxPayload || |nonce| != 4 then None
    else
      Some(Sealed(c, Envelope(c, Inner(c, payload, head), nonce), noise))
  }

  function Decrypt(c: Codec, sealed: Bytes): Option<Bytes> {
    if sealed == [] || |sealed| % SealBlock != 0 || |sealed| > MaxPayload then None
    else
      var p := c.unseal(sealed);
      if p == [] then None
      else
        var pad := p[|p| - 1];
        if pad < 1 || pad > SealBlock || pad > |p| then None else Opened(c, p[..|p| - pad])
  }

  /** What the envelope holds. */
  function Opened(c: Codec, env: Bytes): Option<Bytes> {
    if |env| < 13 || |env| % 8 != 5 || env[0] != XorByte(env[1], 3) then None
    else
      Inside(c, env[|env| - 4..], env[1..|env| - 4])
  }

  function Inside(c: Codec, nonce: Bytes, x: Bytes): Option<Bytes> {
    Unpacked(c, c.unchain(nonce, x))
  }

  function Offset(first: Byte): nat {
    if first % 4 == 0 then 4 else first % 4
  }

  function Unpacked(c: Codec, inner: Bytes): Option<Bytes> {
    if inner == [] || Offset(inner[0]) + 4 > |inner| then None
    else
      var off := Offset(inner[0]);
      var size := FromLittleEndian(inner[off..]);
      if size > MaxPayload then None
      else
        match c.inflate(inner[off + 4..], size + 1)
        case None => None
        case Some(plain) => if |plain| != size then None else Some(plain)
  }

  // ----- The round trip -----------------------------------------------------------------------

  lemma LengthReadsBack(n: nat, rest: Bytes)
    requires n < Modulus
    ensures FromLittleEndian(LittleEndian(n) + rest) == n
  {
    WordReadsBack(n);
  }

  lemma HeadOffset(head: Byte)
    ensures Offset(head / 4 * 4 + 1) == 1
  {
  }

  lemma InnerParts(first: Byte, len: Bytes, z: Bytes, zeros: Bytes, inner: Bytes)
    requires |len| == 4 && inner == [first] + len + z + zeros
    ensures |inner| >= 5 && inner[0] == first && inner[1..] == len + (z + zeros) && inner[5..] == z + zeros
  {
  }

  lemma UnpacksAt(c: Codec, inner: Bytes, payload: Bytes)
    requires |inner| >= Half && Offset(inner[0]) == 1 && FromLittleEndian(inner[1..]) == |payload| <= MaxPayload
    requires c.inflate(inner[5..], |payload| + 1) == Some(payload)
    ensures Unpacked(c, inner) == Some(payload)
  {
  }

  lemma InnerUnpacks(c: Codec, payload: Bytes, head: Byte)
    requires Inverses(c) && |payload| <= MaxPayload
    ensures Unpacked(c, Inner(c, payload, head)) == Some(payload)
  {
    var first, len, z := head / 4 * 4 + 1, LittleEndian(|payload|), c.deflate(payload);
    var body := [first] + len + z;
    var zeros := Zeros(8 + (8 - |body| % 8) % 8);
    var inner := Inner(c, payload, head);
    InnerParts(first, len, z, zeros, inner);
    HeadOffset(head);
    LengthReadsBack(|payload|, z + zeros);
    assert c.inflate(z + zeros, |payload| + 1) == Some(payload);
    UnpacksAt(c, inner, payload);
  }

  lemma EnvelopeParts(y: Byte, x: Bytes, nonce: Bytes, env: Bytes)
    requires |x| > 0 && |nonce| == 4 && env == [y] + x + nonce
    ensures |env| == |x| + 5 && env[0] == y && env[1] == x[0]
    ensures env[|env| - 4..] == nonce && env[1..|env| - 4] == x
  {
  }

  lemma OpensWhatWasChained(c: Codec, env: Bytes)
    requires |env| >= 13 && |env| % 8 == 5 && env[0] == XorByte(env[1], 3)
    ensures Opened(c, env) == Inside(c, env[|env| - 4..], env[1..|env| - 4])
  {
  }

  lemma EnvelopeOpens(c: Codec, inner: Bytes, nonce: Bytes)
    requires Chains(c) && |inner| % Half == 0 && |inner| >= Half && |nonce| == NonceSize
    ensures |Envelope(c, inner, nonce)| == |inner| + 5
    ensures Opened(c, Envelope(c, inner, nonce)) == Unpacked(c, inner)
  {
    var x := c.chain(nonce, inner);
    var env := Envelope(c, inner, nonce);
    assert |x| == |inner|;
    EnvelopeParts(XorByte(x[0], 3), x, nonce, env);
    OpensWhatWasChained(c, env);
  }

  /** The envelope, padded to whole blocks; the last byte says by how much. */
  function Sealed(c: Codec, env: Bytes, noise: Bytes): Bytes
    requires |noise| >= SealBlock
  {
    c.seal(env + Padding(noise, SealBlock - |env| % SealBlock))
  }

  lemma PaddedIsWhole(n: nat)
    ensures (n + (SealBlock - n % SealBlock)) % SealBlock == 0
  {
  }

  lemma PaddingIsTaken(env: Bytes, pad: Bytes, p: Bytes)
    requires pad != [] && p == env + pad
    ensures p != [] && p[|p| - 1] == pad[|pad| - 1] && p[..|p| - |pad|] == env
  {
  }

  lemma UnsealedOpens(c: Codec, sealed: Bytes, p: Bytes, env: Bytes)
    requires sealed != [] && |sealed| % SealBlock == 0 && |sealed| <= MaxPayload
    requires p == c.unseal(sealed) && p != [] && 1 <= p[|p| - 1] <= SealBlock && p[|p| - 1] <= |p|
    requires env == p[..|p| - p[|p| - 1]]
    ensures Decrypt(c, sealed) == Opened(c, env)
  {
  }

  lemma SealingIsUndone(c: Codec, env: Bytes, noise: Bytes)
    requires Inverses(c) && |noise| >= SealBlock
    ensures var s := Sealed(c, env, noise);
            Decrypt(c, s) == if |s| > MaxPayload then None else Opened(c, env)
  {
    var n := SealBlock - |env| % SealBlock;
    var pad := Padding(noise, n);
    var p := env + pad;
    PaddedIsWhole(|env|);
    PaddingIsTaken(env, pad, p);
    assert c.unseal(c.seal(p)) == p && |c.seal(p)| == |p|;
    if |p| <= MaxPayload {
      UnsealedOpens(c, c.seal(p), p, env);
    }
  }

  /** Header, padding, envelope and sealing add up to this much beyond the deflated body at the limit. */
  const Overhead := 21

  lemma InnerLength(z: nat)
    ensures var body := 5 + z;
            var inner := body + 8 + (8 - body % 8) % 8;
            inner + 5 < MaxPayload <==> z <= MaxPayload - Overhead
  {
  }

  lemma SealedLength(env: nat)
    ensures env + (SealBlock - env % SealBlock) <= MaxPayload <==> env < MaxPayload
  {
  }

  lemma CiphertextFits(c: Codec, payload: Bytes, nonce: Bytes, head: Byte, noise: Bytes)
    requires Inverses(c) && |noise| >= SealBlock && |payload| <= MaxPayload && |nonce| == 4
    ensures |Sealed(c, Envelope(c, Inner(c, payload, head), nonce), noise)| <= MaxPayload <==> |c.deflate(payload)| <= MaxPayload - Overhead
  {
    var inner := Inner(c, payload, head);
    var env := Envelope(c, inner, nonce);
    InnerIsLong(c, payload, head);
    SealedIsLong(c, env, noise);
    LengthsFit(|c.deflate(payload)|, |inner|, |env|, |Sealed(c, env, noise)|);
  }

  lemma LengthsFit(z: nat, inner: nat, env: nat, sealed: nat)
    requires inner == (5 + z) + 8 + (8 - (5 + z) % 8) % 8 && env == inner + 5 && sealed == env + (SealBlock - env % SealBlock)
    ensures sealed <= MaxPayload <==> z <= MaxPayload - Overhead
  {
    InnerLength(z);
    SealedLength(env);
  }

  lemma InnerIsLong(c: Codec, payload: Bytes, head: Byte)
    requires |payload| <= MaxPayload
    ensures var body := 5 + |c.deflate(payload)|; |Inner(c, payload, head)| == body + 8 + (8 - body % 8) % 8
  {
  }

  lemma SealedIsLong(c: Codec, env: Bytes, noise: Bytes)
    requires Inverses(c) && |noise| >= SealBlock
    ensures |Sealed(c, env, noise)| == |env| + (SealBlock - |env| % SealBlock)
  {
  }

  /**
   Decryption undoes encryption, for every payload, nonce, header byte and noise,
   if and only if the deflated payload leaves room for what is added to it.
   */
  lemma DecryptUndoesEncrypt(c: Codec, payload: Bytes, nonce: Bytes, head: Byte, noise: Bytes)
    requires Inverses(c) && |noise| >= SealBlock && Encrypt(c, payload, nonce, head, noise).Some?
    ensures Decrypt(c, Encrypt(c, payload, nonce, head, noise).value) ==
            if |c.deflate(payload)| <= MaxPayload - Overhead then Some(payload) else None
  {
    var inner := Inner(c, payload, head);
    SealingIsUndone(c, Envelope(c, inner, nonce), noise);
    EnvelopeOpens(c, inner, nonce);
    InnerUnpacks(c, payload, head);
    CiphertextFits(c, payload, nonce, head, noise);
  }

  /** A payload of the permitted size that does not shrink is encrypted, and then refused. */
  lemma IncompressibleIsRefused(c: Codec, payload: Bytes, nonce: Bytes, head: Byte, noise: Bytes)
    requires Inverses(c) && |noise| >= SealBlock && |nonce| == 4
    requires |payload| == MaxPayload && |c.deflate(payload)| >= |payload|
    ensures Encrypt(c, payload, nonce, head, noise).Some?
    ensures Decrypt(c, Encrypt(c, payload, nonce, head, noise).value) == None
  {
    DecryptUndoesEncrypt(c, payload, nonce, head, noise);
  }

  // ----- The program's cipher -----------------------------------------------------------------

  const Suffix: Bytes := [0x27, 0x04, 0x20, 0x20]

  function ChainUnder(mix: Mixer, nonce: Bytes, b: Bytes, decrypt: bool): Bytes {
    if |nonce| != NonceSize || |b| % Half != 0 then [] else Cbc(mix, nonce + Suffix, b, decrypt)
  }

  /** The chained XTEA of a mixer, with the rest of a codec. */
  function WithXtea(c: Codec, mix: Mixer): Codec {
    c.(chain := (nonce, b) => ChainUnder(mix, nonce, b, false), unchain := (nonce, b) => ChainUnder(mix, nonce, b, true))
  }

  lemma ChainUnderIsUndone(mix: Mixer, nonce: Bytes, b: Bytes)
    requires |nonce| == NonceSize && |b| % Half == 0
    ensures |ChainUnder(mix, nonce, b, false)| == |b| == |ChainUnder(mix, nonce, b, true)|
    ensures ChainUnder(mix, nonce, ChainUnder(mix, nonce, b, false), true) == b
  {
    CbcIsUndone(mix, nonce + Suffix, b);
  }

  /** Under every key the chained XTEA keeps whole blocks and is undone. */
  lemma XteaChains(c: Codec, mix: Mixer)
    ensures Chains(WithXtea(c, mix))
  {
    var d := WithXtea(c, mix);
    forall nonce, b | |nonce| == NonceSize && |b| % Half == 0
      ensures |d.chain(nonce, b)| == |b| && d.unchain(nonce, d.chain(nonce, b)) == b && |d.unchain(nonce, b)| == |b|
    {
      ChainUnderIsUndone(mix, nonce, b);
    }
  }

  const SdkKey: Bytes := [0x78, 0x23, 0x99, 0xbd, 0xfa, 0xce, 0xde, 0xad, 0x32, 0x30, 0x31, 0x30, 0x30, 0x34, 0x30, 0x34]

  /** The round trip with the program's own cipher and key; of AES and zlib only their inverse laws are assumed. */
  lemma SdkPayloadReadsBack(outer: Codec, payload: Bytes, nonce: Bytes, head: Byte, noise: Bytes)
    requires Outer(outer) && |noise| >= SealBlock && |payload| <= MaxPayload && |nonce| == NonceSize
    ensures var c := WithXtea(outer, MixerOf(KeyOf(SdkKey)));
            var sealed := Encrypt(c, payload, nonce, head, noise);
            && sealed.Some?
            && (Decrypt(c, sealed.value) == Some(payload) <==> |c.deflate(payload)| <= MaxPayload - Overhead)
  {
    var c := WithXtea(outer, MixerOf(KeyOf(SdkKey)));
    XteaChains(outer, MixerOf(KeyOf(SdkKey)));
    DecryptUndoesEncrypt(c, payload, nonce, head, noise);
  }

  // ----- What is on the wire ------------------------------------------------------------------

  lemma PartsInPlace(first: Byte, len: Bytes, z: Bytes, zeros: Bytes, r: Bytes)
    requires |len| == 4 && r == [first] + len + z + zeros
    ensures |r| == 5 + |z| + |zeros| && r[0] == first && r[5..5 + |z|] == z
    ensures forall i :: 0 <= i < 4 ==> r[1 + i] == len[i]
    ensures forall i :: 0 <= i < |zeros| ==> r[5 + |z| + i] == zeros[i]
  {
  }

  lemma LengthInPlace(n: nat)
    requires n < Modulus
    ensures var b := LittleEndian(n); (b[0] as int) + (b[1] as int) * 0x100 + (b[2] as int) * 0x1_0000 + (b[3] as int) * 0x100_0000 == n
  {
    LengthReadsBack(n, []);
    assert LittleEndian(n) + [] == LittleEndian(n);
  }

  /**
   The plain block: a first byte whose two low bits are 1, the length lowest byte first, the
   deflated body, and eight to fifteen zeros up to whole blocks.
   */
  lemma InnerLayout(c: Codec, payload: Bytes, head: Byte)
    requires |payload| <= MaxPayload
    ensures var r, z := Inner(c, payload, head), c.deflate(payload);
            && r[0] % 4 == 1 && r[0] / 4 == head / 4
            && (r[1] as int) + (r[2] as int) * 0x100 + (r[3] as int) * 0x1_0000 + (r[4] as int) * 0x100_0000 == |payload|
            && 5 + |z| + 8 <= |r| < 5 + |z| + 16 && |r| % 8 == 0
            && r[5..5 + |z|] == z && forall i :: 5 + |z| <= i < |r| ==> r[i] == 0
  {
    var z := c.deflate(payload);
    var pad := 8 + (8 - (5 + |z|) % 8) % 8;
    ZerosAreZero(pad);
    LengthInPlace(|payload|);
    var r := Inner(c, payload, head);
    PartsInPlace(head / 4 * 4 + 1, LittleEndian(|payload|), z, Zeros(pad), r);
    forall i | 5 + |z| <= i < |r| ensures r[i] == 0 {
      assert r[5 + |z| + (i - 5 - |z|)] == Zeros(pad)[i - 5 - |z|];
    }
  }

  lemma {:induction false} ZerosAreZero(n: nat)
    ensures forall i :: 0 <= i < n ==> Zeros(n)[i] == 0
  {
    if n > 0 {
      ZerosAreZero(n - 1);
    }
  }

  /** Around it: a first byte that differs from the second in its two low bits, and the nonce in clear at the end; then padding that ends with its own length. */
  lemma EnvelopeLayout(c: Codec, inner: Bytes, nonce: Bytes, noise: Bytes)
    requires Chains(c) && |nonce| == NonceSize && |inner| % Half == 0 && inner != [] && |noise| >= SealBlock
    ensures var env, x := Envelope(c, inner, nonce), c.chain(nonce, inner);
            && |env| == |inner| + 5 && env[0] == XorByte(x[0], 3)
            && env[1..|env| - 4] == x && env[|env| - 4..] == nonce
    ensures var env := Envelope(c, inner, nonce);
            exists padded :: Sealed(c, env, noise) == c.seal(padded) && env <= padded && |padded| % SealBlock == 0
              && 1 <= |padded| - |env| <= SealBlock && padded[|padded| - 1] == |padded| - |env|
  {
    var env := Envelope(c, inner, nonce);
    PaddedIsWhole(|env|);
    var pad := Padding(noise, SealBlock - |env| % SealBlock);
    var padded := env + pad;
    assert padded[|padded| - 1] == pad[|pad| - 1];
  }

  /** Exclusive or with 3 changes the two low bits, and only those. */
  lemma ThreeFlipsTwoBits(a: Byte, k: nat)
    requires k < 8
    ensures Bit(XorByte(a, 3), k) == if k < 2 then 1 - Bit(a, k) else Bit(a, k)
  {
    XorIsBitwise(a, 3, 8, k);
    if k >= 2 {
      BitOfThree(k);
    }
    assert Bit(3, 0) == 1 && Bit(3, 1) == 1;
  }

  lemma BitOfThree(k: nat)
    requires k >= 2
    ensures Bit(3, k) == 0
  {
    assert Bit(3, k) == Bit(1, k - 1) && Bit(1, k - 1) == Bit(0, k - 2);
    BitOfZero(k - 2);
  }

  lemma {:induction false} BitOfZero(k: nat)
    ensures Bit(0, k) == 0
  {
    if k > 0 {
      BitOfZero(k - 1);
    }
  }

  // ----- What is accepted -----------------------------------------------------------------------

  /** Whatever is decrypted had whole blocks within the limit, well-formed padding, and an envelope that opens. */
  lemma AcceptedIsSealed(c: Codec, sealed: Bytes)
    requires Decrypt(c, sealed).Some?
    ensures sealed != [] && |sealed| % SealBlock == 0 && |sealed| <= MaxPayload
    ensures var p := c.unseal(sealed);
            && p != [] && 1 <= p[|p| - 1] <= SealBlock && p[|p| - 1] <= |p|
            && Opened(c, p[..|p| - p[|p| - 1]]) == Decrypt(c, sealed)
  {
  }

  /** Whatever an envelope gave had the right length, the marker of its first byte, a header in place, and exactly as many bytes as that states. */
  lemma AcceptedIsMarked(c: Codec, env: Bytes)
    requires Opened(c, env).Some?
    ensures |env| >= 13 && |env| % 8 == 5 && env[0] == XorByte(env[1], 3)
    ensures var inner := c.unchain(env[|env| - 4..], env[1..|env| - 4]);
            var plain := Opened(c, env).value;
            && inner != [] && Offset(inner[0]) + 4 <= |inner| && 1 <= Offset(inner[0]) <= 4
            && FromLittleEndian(inner[Offset(inner[0])..]) == |plain| <= MaxPayload
            && c.inflate(inner[Offset(inner[0]) + 4..], |plain| + 1) == Some(plain)
  {
  }
}
