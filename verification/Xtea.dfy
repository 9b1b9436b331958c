/**
 The XTEA variant of the SDK payload: 64-bit blocks and any number of rounds.
 Words are 32 bits wide and every sum wraps around.
 */
module Xtea {
  const Modulus := 0x1_0000_0000

  type Word = x: int | 0 <= x < Modulus

  const Delta: Word := 0x9e3779b9

  datatype Block = Block(first: Word, second: Word)

  function Add(a: Word, b: Word): Word {
    (a + b) % Modulus
  }

  function Sub(a: Word, b: Word): Word {
    (a - b) % Modulus
  }

  lemma AddSub(a: Word, b: Word)
    ensures Sub(Add(a, b), b) == a && Add(Sub(a, b), b) == a
  {
  }

  /** What a half contributes: of the word, the running total and the key word chosen. */
  type Mixer = (Word, Word, nat) -> Word

  /** The key word for the first half, and for the second. */
  function Low(sum: Word): nat { sum % 4 }

  function High(sum: Word): nat { sum / 2048 % 4 }

  // ----- One round --------------------------------------------------------------------

  function Forward(mix: Mixer, b: Block, sum: Word): Block {
    var first := Add(b.first, mix(b.second, sum, Low(sum)));
    var total := Add(sum, Delta);
    Block(first, Add(b.second, mix(first, total, High(total))))
  }

  /** Undoes a round; `total` is the sum after it. */
  function Backward(mix: Mixer, b: Block, total: Word): Block {
    var second := Sub(b.second, mix(b.first, total, High(total)));
    var sum := Sub(total, Delta);
    Block(Sub(b.first, mix(second, sum, Low(sum))), second)
  }

  lemma RoundIsUndone(mix: Mixer, b: Block, sum: Word)
    ensures Backward(mix, Forward(mix, b, sum), Add(sum, Delta)) == b
  {
    AddSub(sum, Delta);
    var f := Forward(mix, b, sum);
    var total := Add(sum, Delta);
    AddSub(b.second, mix(f.first, total, High(total)));
    AddSub(b.first, mix(b.second, sum, Low(sum)));
  }

  // ----- A block ------------------------------------------------------------------------

  /** The sum after `n` rounds. */
  function Total(n: nat): Word {
    n * Delta % Modulus
  }

  lemma TotalSteps(n: nat)
    ensures Total(n + 1) == Add(Total(n), Delta)
  {
    assert (n + 1) * Delta == n * Delta + Delta;
    RemainderOfSum(n * Delta, Delta);
  }

  lemma RemainderOfSum(x: nat, d: nat)
    ensures (x + d) % Modulus == (x % Modulus + d) % Modulus
  {
    assert x == (x / Modulus) * Modulus + x % Modulus;
  }

  function Encrypted(mix: Mixer, b: Block, n: nat): Block {
    if n == 0 then b else Forward(mix, Encrypted(mix, b, n - 1), Total(n - 1))
  }

  function Decrypted(mix: Mixer, b: Block, n: nat): Block
    decreases n
  {
    if n == 0 then b else Decrypted(mix, Backward(mix, b, Total(n)), n - 1)
  }

  /** Decryption undoes encryption, however the halves are mixed, for every block and number of rounds. */
  lemma {:induction false} RoundsAreUndone(mix: Mixer, b: Block, n: nat)
    ensures Decrypted(mix, Encrypted(mix, b, n), n) == b
  {
    if n > 0 {
      RoundIsUndone(mix, Encrypted(mix, b, n - 1), Total(n - 1));
      TotalSteps(n - 1);
      RoundsAreUndone(mix, b, n - 1);
    }
  }

  /** One block, round after round. */
  method XteaBlock(mix: Mixer, b: Block, rounds: Word, decrypt: bool) returns (out: Block)
    ensures out == if decrypt then Decrypted(mix, b, rounds) else Encrypted(mix, b, rounds)
  {
    var first, second, sum: Word := b.first, b.second, 0;
    if decrypt {
      sum := rounds * Delta % Modulus;
    }
    var r: int := 0;
    while r < rounds
      invariant 0 <= r <= rounds
      invariant sum == Total(if decrypt then rounds - r else r)
      invariant !decrypt ==> Block(first, second) == Encrypted(mix, b, r)
      invariant decrypt ==> Decrypted(mix, Block(first, second), rounds - r) == Decrypted(mix, b, rounds)
    {
      if decrypt {
        TotalSteps(rounds - r - 1);
        AddSub(Total(rounds - r - 1), Delta);
        second := Sub(second, mix(first, sum, High(sum)));
        sum := Sub(sum, Delta);
        first := Sub(first, mix(second, sum, Low(sum)));
      } else {
        TotalSteps(r);
        first := Add(first, mix(second, sum, Low(sum)));
        sum := Add(sum, Delta);
        second := Add(second, mix(first, sum, High(sum)));
      }
      r := r + 1;
    }
    out := Block(first, second);
  }

  // ----- The mixing function --------------------------------------------------------------

  datatype Key = Key(k0: Word, k1: Word, k2: Word, k3: Word)

  function KeyWord(key: Key, index: nat): Word {
    if index == 0 then key.k0 else if index == 1 then key.k1 else if index == 2 then key.k2 else key.k3
  }

  function Mixed(word: bv32, total: bv32, key: bv32): bv32 {
    (((word << 4) ^ (word >> 5)) + word) ^ (total + key)
  }

  /** How a key mixes. */
  function MixerOf(key: Key): Mixer {
    (word, total, index) => Mixed(word as bv32, total as bv32, KeyWord(key, index) as bv32) as int
  }

  /** So under every key, decryption undoes encryption, for every block and number of rounds. */
  lemma KeyedRoundsAreUndone(key: Key, b: Block, n: nat)
    ensures Decrypted(MixerOf(key), Encrypted(MixerOf(key), b, n), n) == b
  {
    RoundsAreUndone(MixerOf(key), b, n);
  }

  // ----- Known answers ------------------------------------------------------------------------

  /** The step of the sum is the golden ratio's fractional part in 32 bits: (sqrt 5 - 1) * 2^31, rounded down. */
  lemma DeltaIsGolden(x: int)
    ensures 0 <= x && (2 * x + Modulus) * (2 * x + Modulus) <= 5 * Modulus * Modulus < (2 * x + 2 + Modulus) * (2 * x + 2 + Modulus) <==> x == Delta
  {
    if 0 <= x < Delta {
      var a, b := 2 * x + 2 + Modulus, 2 * Delta + Modulus;
      assert a <= b;
      assert a * a <= b * b by {
        Squares(a, b);
      }
    } else if x > Delta {
      Squares(2 * Delta + 2 + Modulus, 2 * x + Modulus);
    }
  }

  lemma Squares(a: nat, b: nat)
    requires a <= b
    ensures a * a <= b * b
  {
    assert a * a <= a * b && a * b <= b * b;
  }

  /** What the shifts, sums and exclusive ors of one mixing give, for words with bits in every place. */
  lemma MixingIsKnown()
    ensures Mixed(0x01234567, 0x9e3779b9, 0xfacedead) == 0x8a66c9a4
    ensures Mixed(0x63514657, 0x00000000, 0x782399bd) == 0xe143ac24
    ensures Mixed(0x80000001, 0x00000000, 0x00000000) == 0x84000011
    ensures Mixed(0x00000000, 0xffffffff, 0x00000002) == 0x00000001
  {
  }

  /** The words of the key are chosen by the two low bits of the sum, then by bits eleven and twelve of the next. */
  lemma KeyWordsAreChosen()
    ensures Low(0x9e3779b9) == 1 && High(0x9e3779b9) == 3
    ensures Low(Add(0x9e3779b9, 0x9e3779b9)) == 2 && High(Add(0x9e3779b9, 0x9e3779b9)) == 2
    ensures Low(0x7ff) == 3 && High(0x7ff) == 0 && High(0x800) == 1 && High(0x1fff) == 3
  {
  }
}
