/**
 The protobuf wire format of the device requests: varints and byte fields, encoded
 by appending and decoded by consuming (Protocol Buffers encoding, "Base 128
 Varints" and "Message Structure").
 */
module Protobuf {
  import opened Common

  type Bytes = seq<Byte>

  const Word := 0x1_0000_0000_0000_0000
  const HalfWord := 0x8000_0000_0000_0000
  const FieldLimit := 0x2000_0000
  const NumberRange := 0x2000_0000_0000_0000

  // ----- Varints ---------------------------------------------------------------------

  function Put(x: nat): (b: Bytes)
    ensures b != []
  {
    if x < 128 then [x] else [x % 128 + 128] + Put(x / 128)
  }

  datatype Read = Got(x: nat, n: nat) | Short | Over

  const MaxVarint := 10

  /** The varint at the head of `b`, `i` bytes of it already read. */
  function ReadFrom(b: Bytes, i: nat): (r: Read)
    ensures r.Got? ==> 1 <= r.n <= |b|
  {
    if b == [] then Short
    else if i == MaxVarint then Over
    else if b[0] < 128 then if i == MaxVarint - 1 && b[0] > 1 then Over else Got(b[0], 1)
    else Shifted(b[0] - 128, 128, 1, ReadFrom(b[1..], i + 1))
  }

  /** A reading of what follows `n` bytes that already gave `x`. */
  function Shifted(x: nat, scale: nat, n: nat, r: Read): Read {
    if r.Got? then Got(x + scale * r.x, n + r.n) else r
  }

  /** What `i` bytes leave for the rest of a 64-bit value. */
  function Room(i: nat): nat
    requires i < MaxVarint
    decreases MaxVarint - i
  {
    if i == MaxVarint - 1 then 2 else 128 * Room(i + 1)
  }

  lemma RoomIsWord()
    ensures Room(0) == Word
  {
    assert Room(6) == 128 * (128 * (128 * 2)) by {
      assert Room(8) == 128 * 2;
    }
    assert Room(3) == 128 * (128 * (128 * Room(6))) by {
      assert Room(5) == 128 * Room(6);
    }
    assert Room(0) == 128 * (128 * (128 * Room(3))) by {
      assert Room(2) == 128 * Room(3);
    }
  }

  lemma {:induction false} ReadsPut(x: nat, i: nat, rest: Bytes)
    requires i < MaxVarint && x < Room(i)
    ensures ReadFrom(Put(x) + rest, i) == Got(x, |Put(x)|)
    decreases x
  {
    if x >= 128 {
      assert i < MaxVarint - 1;
      ReadsPut(x / 128, i + 1, rest);
      assert (Put(x) + rest)[1..] == Put(x / 128) + rest;
    }
  }

  /** Every 64-bit value is read back, with exactly its own bytes. */
  lemma VarintReadsBack(x: nat, rest: Bytes)
    requires x < Word
    ensures ReadFrom(Put(x) + rest, 0) == Got(x, |Put(x)|)
  {
    RoomIsWord();
    ReadsPut(x, 0, rest);
  }

  method AppendUvarint(b: Bytes, value: nat) returns (out: Bytes)
    ensures out == b + Put(value)
  {
    var x := value;
    out := b;
    while x >= 128
      invariant out + Put(x) == b + Put(value)
      decreases x
    {
      assert Put(x) == [x % 128 + 128] + Put(x / 128);
      out := out + [x % 128 + 128];
      x := x / 128;
    }
    out := out + [x];
  }

  method Uvarint(b: Bytes) returns (r: Read)
    ensures r == ReadFrom(b, 0)
  {
    var x: nat, scale: nat, i: nat := 0, 1, 0;
    assert b[0..] == b;
    while i < |b|
      invariant i <= |b| && i <= MaxVarint
      invariant ReadFrom(b, 0) == Shifted(x, scale, i, ReadFrom(b[i..], i))
    {
      assert b[i..][0] == b[i] && b[i..][1..] == b[i + 1..];
      if i == MaxVarint {
        return Over;
      }
      if b[i] < 128 {
        if i == MaxVarint - 1 && b[i] > 1 {
          return Over;
        }
        return Got(x + scale * b[i], i + 1);
      }
      ShiftedOn(x, scale, i, b[i] - 128, ReadFrom(b[i + 1..], i + 1));
      x := x + scale * (b[i] - 128);
      scale := scale * 128;
      i := i + 1;
    }
    assert b[i..] == [];
    return Short;
  }

  lemma ShiftedOn(x: nat, scale: nat, n: nat, y: nat, r: Read)
    ensures Shifted(x, scale, n, Shifted(y, 128, 1, r)) == Shifted(x + scale * y, scale * 128, n + 1, r)
  {
    if r.Got? {
      assert scale * (y + 128 * r.x) == scale * y + scale * 128 * r.x;
    }
  }

  // ----- Fields ------------------------------------------------------------------------

  datatype Field = Integer(number: int, value: nat) | Blob(number: int, bytes: Bytes)

  /** What the program's types can hold: a 64-bit number, value and length. */
  ghost predicate Representable(f: Field) {
    && -HalfWord <= f.number < HalfWord
    && (f.Integer? ==> f.value < Word)
    && (f.Blob? ==> |f.bytes| < HalfWord)
  }

  function Wire(f: Field): nat {
    if f.Integer? then 0 else 2
  }

  /** The number shifted by three as a 64-bit word, with the wire type below it. */
  function Tag(f: Field): nat {
    f.number * 8 % Word + Wire(f)
  }

  function EncodeField(f: Field): Bytes {
    Put(Tag(f)) + if f.Integer? then Put(f.value) else Put(|f.bytes|) + f.bytes
  }

  function Encode(fs: seq<Field>): Bytes {
    if fs == [] then [] else EncodeField(fs[0]) + Encode(fs[1..])
  }

  /** One field and what follows it. */
  function DecodeField(b: Bytes): (r: Option<(Field, Bytes)>)
    ensures r.Some? ==> |r.value.1| + 2 <= |b|
  {
    var tag := ReadFrom(b, 0);
    if !tag.Got? then None
    else
      var b1 := b[tag.n..];
      var number, wire := tag.x / 8, tag.x % 8;
      if number < 1 || number >= FieldLimit then None
      else
        var value := ReadFrom(b1, 0);
        if !value.Got? then None
        else
          var b2 := b1[value.n..];
          if wire == 0 then Some((Integer(number, value.x), b2))
          else if wire == 2 then if value.x > |b2| then None else Some((Blob(number, b2[..value.x]), b2[value.x..]))
          else None
  }

  function Decode(b: Bytes): Option<seq<Field>>
    decreases |b|
  {
    if b == [] then Some([])
    else
      match DecodeField(b)
      case None => None
      case Some((f, rest)) =>
        match Decode(rest)
        case None => None
        case Some(fs) => Some([f] + fs)
  }

  method AppendField(b: Bytes, f: Field) returns (out: Bytes)
    ensures out == b + EncodeField(f)
  {
    out := AppendUvarint(b, Tag(f));
    if f.Integer? {
      out := AppendUvarint(out, f.value);
    } else {
      out := AppendUvarint(out, |f.bytes|);
      out := out + f.bytes;
    }
  }

  lemma EncodeOn(out: Bytes, fs: seq<Field>, i: nat)
    requires i < |fs|
    ensures out + Encode(fs[i..]) == out + EncodeField(fs[i]) + Encode(fs[i + 1..])
  {
    var rest := fs[i..];
    assert rest[0] == fs[i] && rest[1..] == fs[i + 1..];
    assert Encode(rest) == EncodeField(fs[i]) + Encode(fs[i + 1..]);
  }

  method EncodeProto(fs: seq<Field>) returns (out: Bytes)
    ensures out == Encode(fs)
  {
    out := [];
    assert fs[0..] == fs;
    for i := 0 to |fs|
      invariant out + Encode(fs[i..]) == Encode(fs)
    {
      EncodeOn(out, fs, i);
      out := AppendField(out, fs[i]);
    }
    assert fs[|fs|..] == [];
  }

  method DecodeProto(input: Bytes) returns (r: Option<seq<Field>>)
    ensures r == Decode(input)
  {
    var b, out: seq<Field> := input, [];
    PrependedOn([], Integer(0, 0), Decode(input));
    while b != []
      invariant Decode(input) == Prepended(out, Decode(b))
      decreases |b|
    {
      var tag := Uvarint(b);
      if !tag.Got? {
        return None;
      }
      var b1 := b[tag.n..];
      var number, wire := tag.x / 8, tag.x % 8;
      if number < 1 || number >= FieldLimit {
        return None;
      }
      var value := Uvarint(b1);
      if !value.Got? {
        return None;
      }
      var b2 := b1[value.n..];
      var f := Integer(number, value.x);
      if wire == 2 {
        if value.x > |b2| {
          return None;
        }
        f, b2 := Blob(number, b2[..value.x]), b2[value.x..];
      } else if wire != 0 {
        return None;
      }
      assert DecodeField(b) == Some((f, b2));
      PrependedOn(out, f, Decode(b2));
      b, out := b2, out + [f];
    }
    assert out + [] == out;
    return Some(out);
  }

  // ----- Round trips -----------------------------------------------------------------------

  ghost predicate Numbered(f: Field) {
    1 <= f.number < FieldLimit
  }

  lemma WordRemainder(x: int, q: int, r: nat)
    requires x == q * Word + r && r < Word
    ensures x % Word == r
  {
    assert x == (x / Word) * Word + x % Word;
  }

  lemma TagIsWord(f: Field)
    requires Representable(f)
    ensures Tag(f) < Word && Tag(f) % 8 == Wire(f) && Tag(f) / 8 == f.number % NumberRange
    ensures 1 <= f.number < FieldLimit ==> Tag(f) / 8 == f.number
  {
    var q, r := f.number / NumberRange, f.number % NumberRange;
    assert f.number == q * NumberRange + r;
    WordRemainder(f.number * 8, q, r * 8);
  }

  lemma FieldReadsBack(f: Field, rest: Bytes)
    requires Representable(f)
    ensures DecodeField(EncodeField(f) + rest) == (if 1 <= Tag(f) / 8 < FieldLimit then Some((f.(number := Tag(f) / 8), rest)) else None)
  {
    TagIsWord(f);
    var b := EncodeField(f) + rest;
    var body := if f.Integer? then Put(f.value) else Put(|f.bytes|) + f.bytes;
    VarintReadsBack(Tag(f), body + rest);
    assert b == Put(Tag(f)) + (body + rest);
    assert b[|Put(Tag(f))|..] == body + rest;
    if f.Integer? {
      VarintReadsBack(f.value, rest);
      assert (body + rest)[|Put(f.value)|..] == rest;
    } else {
      VarintReadsBack(|f.bytes|, f.bytes + rest);
      assert body + rest == Put(|f.bytes|) + (f.bytes + rest);
      assert (body + rest)[|Put(|f.bytes|)|..] == f.bytes + rest;
    }
  }

  lemma FirstFieldDecodes(f: Field, tail: Bytes, rest: Option<seq<Field>>)
    requires Representable(f) && rest == Decode(tail)
    ensures Decode(EncodeField(f) + tail) ==
            if 1 <= Tag(f) / 8 < FieldLimit && rest.Some? then Some([f.(number := Tag(f) / 8)] + rest.value) else None
  {
    FieldReadsBack(f, tail);
    assert EncodeField(f) + tail != [];
  }

  /**
   Decoding gives back exactly what was encoded if and only if every field number
   is one the wire format allows.
   */
  lemma {:induction false} DecodeUndoesEncode(fs: seq<Field>)
    requires forall f <- fs :: Representable(f)
    ensures Decode(Encode(fs)) == Some(fs) <==> forall f <- fs :: Numbered(f)
    ensures Decode(Encode(fs)).Some? ==> |Decode(Encode(fs)).value| == |fs|
  {
    if fs != [] {
      var f, rest := fs[0], fs[1..];
      var decoded := Decode(Encode(rest));
      FirstFieldDecodes(f, Encode(rest), decoded);
      TagIsWord(f);
      DecodeUndoesEncode(rest);
      assert fs == [f] + rest;
      SameList(f.(number := Tag(f) / 8), f, decoded, rest);
    }
  }

  lemma SameList(g: Field, f: Field, decoded: Option<seq<Field>>, rest: seq<Field>)
    ensures decoded.Some? && [g] + decoded.value == [f] + rest <==> decoded == Some(rest) && g == f
  {
    if decoded.Some? && [g] + decoded.value == [f] + rest {
      assert ([g] + decoded.value)[0] == g && ([g] + decoded.value)[1..] == decoded.value;
      assert ([f] + rest)[0] == f && ([f] + rest)[1..] == rest;
    }
  }

  /** Every field takes at least two bytes, so decoding any input ends. */
  lemma {:induction false} FieldsTakeBytes(b: Bytes)
    ensures Decode(b).Some? ==> 2 * |Decode(b).value| <= |b|
    decreases |b|
  {
    if b != [] && DecodeField(b).Some? {
      FieldsTakeBytes(DecodeField(b).value.1);
    }
  }

  function ProtoBytes(fs: seq<Field>, number: int): Option<Bytes> {
    if fs == [] then None
    else if fs[0].number == number && fs[0].Blob? then Some(fs[0].bytes)
    else ProtoBytes(fs[1..], number)
  }

  /** A message inside a byte field is read back through both layers. */
  lemma NestedReadsBack(before: seq<Field>, number: int, inner: seq<Field>, rest: seq<Field>)
    requires forall f <- before + rest :: Representable(f) && Numbered(f)
    requires forall f <- inner :: Representable(f) && Numbered(f)
    requires 1 <= number < FieldLimit && |Encode(inner)| < HalfWord
    requires forall f <- before :: !(f.Blob? && f.number == number)
    ensures var outer := Decode(Encode(before + [Blob(number, Encode(inner))] + rest));
            && outer.Some?
            && ProtoBytes(outer.value, number) == Some(Encode(inner))
            && Decode(ProtoBytes(outer.value, number).value) == Some(inner)
  {
    var fs := before + [Blob(number, Encode(inner))] + rest;
    forall f <- fs ensures Representable(f) && Numbered(f) {
      assert f in before + rest || f == Blob(number, Encode(inner));
    }
    DecodeUndoesEncode(fs);
    DecodeUndoesEncode(inner);
    FindsFirst(before, Blob(number, Encode(inner)), rest);
  }

  lemma {:induction false} FindsFirst(before: seq<Field>, f: Field, rest: seq<Field>)
    requires f.Blob? && forall x <- before :: !(x.Blob? && x.number == f.number)
    ensures ProtoBytes(before + [f] + rest, f.number) == Some(f.bytes)
  {
    if before != [] {
      assert (before + [f] + rest)[1..] == before[1..] + [f] + rest;
      FindsFirst(before[1..], f, rest);
    }
  }

  // ----- Known answers ------------------------------------------------------------------------

  lemma OneField(f: Field)
    ensures Encode([f]) == EncodeField(f)
  {
    assert [f][1..] == [];
    assert Encode([f]) == EncodeField(f) + Encode([f][1..]);
  }

  /** The examples of the format's own documentation (Protocol Buffers encoding): a number and a string. */
  lemma DocumentedNumber()
    ensures Put(150) == [0x96, 0x01]
    ensures Encode([Integer(1, 150)]) == [0x08, 0x96, 0x01]
  {
    OneField(Integer(1, 150));
    assert Put(150) == [0x96] + Put(1);
    assert EncodeField(Integer(1, 150)) == Put(8) + Put(150);
  }

  lemma DocumentedString(text: Bytes)
    requires text == [0x74, 0x65, 0x73, 0x74, 0x69, 0x6e, 0x67]
    ensures Encode([Blob(2, text)]) == [0x12, 0x07] + text
  {
    OneField(Blob(2, text));
    assert EncodeField(Blob(2, text)) == Put(18) + (Put(7) + text);
  }

  /** Varints are the shortest there are: nothing but a lone zero ends in a zero byte, and all bytes but the last have their top bit set. */
  lemma {:induction false} VarintsAreShortest(x: nat)
    ensures var b := Put(x);
            && b[|b| - 1] < 128 && (|b| > 1 ==> b[|b| - 1] > 0)
            && forall i :: 0 <= i < |b| - 1 ==> b[i] >= 128
  {
    if x >= 128 {
      VarintsAreShortest(x / 128);
      assert Put(x)[1..] == Put(x / 128);
    }
  }

  // ----- Whatever is read ------------------------------------------------------------------------

  /**
   How a varint is read: it fits 64 bits and ten bytes; it is short exactly when up to ten
   bytes all go on; anything else overflows.
   */
  lemma {:induction false} VarintsFit(b: Bytes, i: nat)
    requires i <= MaxVarint
    ensures var r := ReadFrom(b, i);
            && (r.Got? ==> i < MaxVarint && r.x < Room(i) && i + r.n <= MaxVarint && b[r.n - 1] < 128 && AllGoOn(b[..r.n - 1]))
            && (r.Short? <==> i + |b| <= MaxVarint && AllGoOn(b))
    decreases |b|
  {
    if b != [] && i < MaxVarint {
      if b[0] < 128 {
        RoomIsWide(i);
        assert b[0] in b;
      } else {
        var rest := b[1..];
        VarintsFit(rest, i + 1);
        OneMoreGoesOn(b[0], rest);
        assert b == [b[0]] + rest;
        var r := ReadFrom(rest, i + 1);
        if r.Got? {
          OneMoreGoesOn(b[0], rest[..r.n - 1]);
          assert b[..r.n] == [b[0]] + rest[..r.n - 1];
          RoomStep(i, b[0] - 128, r.x);
        }
      }
    }
  }

  /** Each byte says that another follows. */
  predicate AllGoOn(b: Bytes) {
    forall x <- b :: x >= 128
  }

  lemma OneMoreGoesOn(x: Byte, rest: Bytes)
    requires x >= 128
    ensures AllGoOn([x] + rest) <==> AllGoOn(rest)
  {
    assert forall y :: y in [x] + rest <==> y == x || y in rest;
  }

  lemma RoomIsWide(i: nat)
    requires i < MaxVarint
    ensures Room(i) >= if i == MaxVarint - 1 then 2 else 128
    decreases MaxVarint - i
  {
    if i < MaxVarint - 1 {
      RoomIsWide(i + 1);
    }
  }

  lemma RoomStep(i: nat, low: nat, high: nat)
    requires i + 1 < MaxVarint && low < 128 && high < Room(i + 1)
    ensures low + 128 * high < Room(i)
  {
  }

  /** Every field that is decoded is one the program's types can hold, with a number the format allows. */
  lemma {:induction false} DecodedIsSound(b: Bytes)
    requires Decode(b).Some?
    ensures forall f <- Decode(b).value :: Numbered(f) && (f.Integer? ==> f.value < Word) && (f.Blob? ==> |f.bytes| < |b|)
    decreases |b|
  {
    if b != [] {
      var (f, rest) := DecodeField(b).value;
      DecodedIsSound(rest);
      FieldIsSound(b);
      assert Decode(b).value == [f] + Decode(rest).value;
    }
  }

  lemma FieldIsSound(b: Bytes)
    requires DecodeField(b).Some?
    ensures var f := DecodeField(b).value.0; Numbered(f) && (f.Integer? ==> f.value < Word) && (f.Blob? ==> |f.bytes| < |b|)
  {
    RoomIsWord();
    var tag := ReadFrom(b, 0);
    var b1 := b[tag.n..];
    var value := ReadFrom(b1, 0);
    VarintsFit(b1, 0);
    assert value.x < Word;
    var b2 := b1[value.n..];
    assert |b2| < |b|;
    if tag.x % 8 == 2 {
      assert DecodeField(b).value.0 == Blob(tag.x / 8, b2[..value.x]);
    } else {
      assert DecodeField(b).value.0 == Integer(tag.x / 8, value.x);
    }
  }

  /** A byte field is missing exactly when no field of the number holds bytes. */
  lemma {:induction false} MissingExactlyWhen(fs: seq<Field>, number: int)
    ensures ProtoBytes(fs, number).None? <==> forall f <- fs :: !(f.Blob? && f.number == number)
  {
    if fs != [] {
      MissingExactlyWhen(fs[1..], number);
      assert forall f :: f in fs <==> f == fs[0] || f in fs[1..];
    }
  }
}
