/**
 MP4 boxes: the walk that tiles a range with boxes, and the walk over a whole file
 to its first movie box (section 4.2 of ISO/IEC 14496-12).
 */
module Mp4 {
  import opened Common

  type Bytes = seq<Byte>

  /** A box from `from` to `end`; its contents begin at `start`. */
  datatype Box = Box(kind: Bytes, from: nat, start: nat, end: nat)

  const Moov: Bytes := [0x6d, 0x6f, 0x6f, 0x76]

  function U32(b: Bytes, at: nat): nat
    requires at + 4 <= |b|
  {
    (b[at] as int) * 0x100_0000 + (b[at + 1] as int) * 0x1_0000 + (b[at + 2] as int) * 0x100 + (b[at + 3] as int)
  }

  function U64(b: Bytes, at: nat): nat
    requires at + 8 <= |b|
  {
    U32(b, at) * 0x1_0000_0000 + U32(b, at + 4)
  }

  // ----- The walk ------------------------------------------------------------------------

  /** The box at `from` in a range that ends at `end`; a size of 0 reaches to the end. */
  function BoxAt(b: Bytes, from: nat, end: nat): (r: Option<Box>)
    requires end <= |b|
    ensures r.Some? ==> r.value.from == from && from + 8 <= r.value.start <= r.value.end <= end
  {
    if end < from + 8 then None
    else
      var size := U32(b, from);
      var kind := b[from + 4..from + 8];
      if size == 1 then
        if |b| < from + 16 then None
        else
          var long := U64(b, from + 8);
          if long < 16 || long > end - from then None else Some(Box(kind, from, from + 16, from + long))
      else if size == 0 then Some(Box(kind, from, from + 8, end))
      else if size < 8 || size > end - from then None
      else Some(Box(kind, from, from + 8, from + size))
  }

  const MaxBoxes := 10000

  /** The boxes that tile the range, if they do. */
  function Boxes(b: Bytes, from: nat, end: nat): (r: Option<seq<Box>>)
    requires end <= |b|
    decreases if from < end then end - from else 0
  {
    if from >= end then Some([])
    else
      match BoxAt(b, from, end)
      case None => None
      case Some(x) =>
        match Boxes(b, x.end, end)
        case None => None
        case Some(rest) => Some([x] + rest)
  }

  /** Each box begins where the one before ended, from the first byte of the range to the last. */
  ghost predicate Tiles(boxes: seq<Box>, from: nat, end: nat) {
    if boxes == [] then from >= end
    else boxes[0].from == from && from + 8 <= boxes[0].start <= boxes[0].end <= end && Tiles(boxes[1..], boxes[0].end, end)
  }

  lemma {:induction false} BoxesTile(b: Bytes, from: nat, end: nat)
    requires end <= |b| && Boxes(b, from, end).Some?
    ensures Tiles(Boxes(b, from, end).value, from, end)
    ensures forall x <- Boxes(b, from, end).value :: from + 8 <= x.start <= x.end <= end
    decreases if from < end then end - from else 0
  {
    if from < end {
      var x := BoxAt(b, from, end).value;
      BoxesTile(b, x.end, end);
      assert Boxes(b, from, end).value[1..] == Boxes(b, x.end, end).value;
    }
  }

  method ReadBoxes(b: Bytes, from: nat, end: nat) returns (r: Option<seq<Box>>)
    requires end <= |b|
    ensures r.Some? ==> r == Boxes(b, from, end) && |r.value| <= MaxBoxes
    ensures r.None? ==> Boxes(b, from, end).None? || |Boxes(b, from, end).value| > MaxBoxes
  {
    var at, out: seq<Box> := from, [];
    PrependedOn([], Box([], 0, 0, 0), Boxes(b, from, end));
    while at < end
      invariant Boxes(b, from, end) == Prepended(out, Boxes(b, at, end))
      invariant |out| <= MaxBoxes
      decreases if at < end then end - at else 0
    {
      var x := BoxAt(b, at, end);
      if x.None? {
        return None;
      }
      PrependedOn(out, x.value, Boxes(b, x.value.end, end));
      out := out + [x.value];
      at := x.value.end;
      if |out| > MaxBoxes {
        return None;
      }
    }
    assert out + [] == out;
    return Some(out);
  }

  // ----- The search for the movie ----------------------------------------------------------

  /** The movie box, a malformed box, or no movie box. */
  datatype Search = Found(at: nat, size: nat) | Malformed | Missing

  const Largest := 0x4_0000_0000_0000
  const LargestMovie := 0x80_0000

  /** What one header in view says: the box's size, that it is malformed, or that it is cut off. */
  datatype Header = Size(n: nat) | Invalid | CutOff

  function HeaderAt(b: Bytes, at: nat): (h: Header)
    ensures h.Size? ==> h.n >= 8 && at + 8 <= |b|
  {
    if |b| < at + 8 then CutOff
    else
      var size := U32(b, at);
      if size == 1 then
        if |b| < at + 16 then CutOff
        else
          var long := U64(b, at + 8);
          if long > Largest || long < 16 then Invalid else Size(long)
      else if size < 8 then Invalid else Size(size)
  }

  predicate IsMovie(b: Bytes, at: nat)
    requires at + 8 <= |b|
  {
    b[at + 4..at + 8] == Moov
  }

  /** The first movie box of a walk over the whole file from `at`. */
  function FirstMovie(file: Bytes, at: nat): Search
    decreases if at < |file| then |file| - at else 0
  {
    match HeaderAt(file, at)
    case CutOff => Missing
    case Invalid => Malformed
    case Size(n) =>
      if IsMovie(file, at) then if n > LargestMovie then Malformed else Found(at, n)
      else FirstMovie(file, at + n)
  }

  lemma {:induction false} FoundIsAhead(file: Bytes, at: nat)
    requires FirstMovie(file, at).Found?
    ensures at <= FirstMovie(file, at).at && FirstMovie(file, at).at + 8 <= |file|
    decreases if at < |file| then |file| - at else 0
  {
    var h := HeaderAt(file, at);
    if !IsMovie(file, at) {
      FoundIsAhead(file, at + h.n);
    }
  }

  // ----- The walk and the boxes -----------------------------------------------------------------

  /** The box states its size. */
  ghost predicate Stated(b: Bytes, x: Box) {
    x.from + 8 <= |b| && U32(b, x.from) != 0
  }

  /** What reading the boxes in order says: a box that leaves its size open is refused. */
  ghost function Verdict(b: Bytes, boxes: seq<Box>): Search {
    if boxes == [] then Missing
    else
      var x := boxes[0];
      if !Stated(b, x) || x.end < x.from then Malformed
      else if x.kind != Moov then Verdict(b, boxes[1..])
      else if x.end - x.from > LargestMovie then Malformed
      else Found(x.from, x.end - x.from)
  }

  lemma BoxesStep(b: Bytes, at: nat) returns (x: Box, rest: seq<Box>)
    requires at < |b| && Boxes(b, at, |b|).Some?
    ensures BoxAt(b, at, |b|) == Some(x) && Boxes(b, x.end, |b|) == Some(rest)
    ensures Boxes(b, at, |b|).value == [x] + rest && at < x.end <= |b|
  {
    x := BoxAt(b, at, |b|).value;
    rest := Boxes(b, x.end, |b|).value;
  }

  lemma BoxHeader(b: Bytes, at: nat, x: Box)
    requires |b| <= Largest && BoxAt(b, at, |b|) == Some(x)
    ensures HeaderAt(b, at) == (if Stated(b, x) then Size(x.end - at) else Invalid)
    ensures IsMovie(b, at) <==> x.kind == Moov
    ensures !Stated(b, x) ==> x.end == |b|
  {
  }

  lemma MovieStep(file: Bytes, at: nat)
    ensures FirstMovie(file, at) ==
            match HeaderAt(file, at)
            case CutOff => Missing
            case Invalid => Malformed
            case Size(n) => if !IsMovie(file, at) then FirstMovie(file, at + n) else if n > LargestMovie then Malformed else Found(at, n)
  {
  }

  lemma VerdictStep(b: Bytes, x: Box, rest: seq<Box>)
    ensures Verdict(b, [x] + rest) ==
            if !Stated(b, x) || x.end < x.from then Malformed
            else if x.kind != Moov then Verdict(b, rest)
            else if x.end - x.from > LargestMovie then Malformed
            else Found(x.from, x.end - x.from)
  {
    assert ([x] + rest)[1..] == rest;
  }

  /** On a file that is tiled by boxes, the walk says exactly what reading the boxes in order says. */
  lemma {:induction false} WalkReadsBoxes(file: Bytes, at: nat, boxes: seq<Box>)
    requires at <= |file| <= Largest && Boxes(file, at, |file|) == Some(boxes)
    ensures FirstMovie(file, at) == Verdict(file, boxes)
    decreases |file| - at
  {
    MovieStep(file, at);
    if at < |file| {
      var x, rest := BoxesStep(file, at);
      BoxHeader(file, at, x);
      VerdictStep(file, x, rest);
      WalkReadsBoxes(file, x.end, rest);
    }
  }

  /** The first box called `moov` lies at `m`, is `n` bytes long, says so, and is not too long. */
  ghost predicate FirstMoov(b: Bytes, boxes: seq<Box>, m: nat, n: nat) {
    exists i :: 0 <= i < |boxes| && IsAt(boxes[i], m, n) && Stated(b, boxes[i]) && n <= LargestMovie
                && forall j :: 0 <= j < i ==> boxes[j].kind != Moov
  }

  ghost predicate IsAt(x: Box, m: nat, n: nat) {
    x.kind == Moov && x.from == m && x.end == m + n
  }

  /** Only the last box may leave its size open. */
  ghost predicate OpenOnlyLast(b: Bytes, boxes: seq<Box>) {
    forall i :: 0 <= i < |boxes| ==> boxes[i].from <= boxes[i].end && (!Stated(b, boxes[i]) ==> i == |boxes| - 1)
  }

  lemma {:induction false} OpenIsLast(b: Bytes, at: nat, boxes: seq<Box>)
    requires at <= |b| <= Largest && Boxes(b, at, |b|) == Some(boxes)
    ensures OpenOnlyLast(b, boxes)
    decreases |b| - at
  {
    if at < |b| {
      var x, rest := BoxesStep(b, at);
      BoxHeader(b, at, x);
      OpenIsLast(b, x.end, rest);
      forall i | 0 <= i < |boxes| ensures boxes[i].from <= boxes[i].end && (!Stated(b, boxes[i]) ==> i == |boxes| - 1) {
        assert i > 0 ==> boxes[i] == rest[i - 1];
      }
    }
  }

  lemma FirstMoovSplits(b: Bytes, x: Box, rest: seq<Box>, m: nat, n: nat)
    ensures FirstMoov(b, [x] + rest, m, n) <==>
            if x.kind == Moov then IsAt(x, m, n) && Stated(b, x) && n <= LargestMovie else FirstMoov(b, rest, m, n)
  {
    var boxes := [x] + rest;
    if FirstMoov(b, boxes, m, n) {
      var i :| 0 <= i < |boxes| && IsAt(boxes[i], m, n) && Stated(b, boxes[i]) && n <= LargestMovie
               && forall j :: 0 <= j < i ==> boxes[j].kind != Moov;
      assert boxes[0] == x;
      assert i > 0 ==> boxes[i] == rest[i - 1];
      assert forall j :: 0 <= j < |rest| ==> rest[j] == boxes[j + 1];
    }
    if x.kind != Moov && FirstMoov(b, rest, m, n) {
      var i :| 0 <= i < |rest| && IsAt(rest[i], m, n) && Stated(b, rest[i]) && n <= LargestMovie
               && forall j :: 0 <= j < i ==> rest[j].kind != Moov;
      assert boxes[i + 1] == rest[i];
      assert forall j :: 0 < j < i + 1 ==> boxes[j] == rest[j - 1];
    }
    if x.kind == Moov && IsAt(x, m, n) {
      assert boxes[0] == x;
    }
  }

  lemma {:induction false} VerdictIsFirstMoov(b: Bytes, boxes: seq<Box>, m: nat, n: nat)
    requires OpenOnlyLast(b, boxes)
    ensures Verdict(b, boxes) == Found(m, n) <==> FirstMoov(b, boxes, m, n)
    decreases |boxes|
  {
    if boxes != [] {
      var x, rest := boxes[0], boxes[1..];
      assert boxes == [x] + rest;
      forall i | 0 <= i < |rest| ensures rest[i].from <= rest[i].end && (!Stated(b, rest[i]) ==> i == |rest| - 1) {
        assert rest[i] == boxes[i + 1];
      }
      VerdictIsFirstMoov(b, rest, m, n);
      VerdictStep(b, x, rest);
      FirstMoovSplits(b, x, rest, m, n);
    }
  }

  /**
   On every file that is tiled by boxes, the walk finds a movie at `m` if and only if
   the first box called `moov` lies there, states its size and is not too long.
   */
  lemma WalkFindsFirstMoov(file: Bytes, at: nat, boxes: seq<Box>, m: nat, n: nat)
    requires at <= |file| <= Largest && Boxes(file, at, |file|) == Some(boxes)
    ensures FirstMovie(file, at) == Found(m, n) <==> FirstMoov(file, boxes, m, n)
  {
    WalkReadsBoxes(file, at, boxes);
    OpenIsLast(file, at, boxes);
    VerdictIsFirstMoov(file, boxes, m, n);
  }

  lemma {:induction false} OpenMoovIsMalformed(b: Bytes, boxes: seq<Box>, i: nat)
    requires OpenOnlyLast(b, boxes)
    requires i < |boxes| && boxes[i].kind == Moov && !Stated(b, boxes[i]) && forall j :: 0 <= j < i ==> boxes[j].kind != Moov
    ensures Verdict(b, boxes) == Malformed
    decreases i
  {
    var rest := boxes[1..];
    assert boxes == [boxes[0]] + rest;
    VerdictStep(b, boxes[0], rest);
    if i > 0 {
      assert forall j :: 0 <= j < |rest| ==> rest[j] == boxes[j + 1];
      OpenMoovIsMalformed(b, rest, i - 1);
    }
  }

  /** A movie that leaves its size open is refused, wherever it is. */
  lemma OpenEndedMovieIsRefused(file: Bytes, at: nat, boxes: seq<Box>, i: nat)
    requires at <= |file| <= Largest && Boxes(file, at, |file|) == Some(boxes)
    requires i < |boxes| && boxes[i].kind == Moov && !Stated(file, boxes[i]) && forall j :: 0 <= j < i ==> boxes[j].kind != Moov
    ensures FirstMovie(file, at) == Malformed
  {
    WalkReadsBoxes(file, at, boxes);
    OpenIsLast(file, at, boxes);
    OpenMoovIsMalformed(file, boxes, i);
  }

  lemma OnlyBox(b: Bytes, x: Box)
    requires b != [] && BoxAt(b, 0, |b|) == Some(x) && x.end == |b|
    ensures Boxes(b, 0, |b|) == Some([x])
  {
    assert Boxes(b, x.end, |b|) == Some([]);
    assert [x] + [] == [x];
  }

  /** For example the eight bytes of an empty one. */
  lemma EmptyOpenMovie()
    ensures var file: Bytes := [0, 0, 0, 0] + Moov;
            Boxes(file, 0, 8) == Some([Box(Moov, 0, 8, 8)]) && FirstMovie(file, 0) == Malformed
  {
    var file: Bytes := [0, 0, 0, 0] + Moov;
    assert |file| == 8 && file[4..8] == Moov;
    var x := Box(Moov, 0, 8, 8);
    assert BoxAt(file, 0, |file|) == Some(x);
    OnlyBox(file, x);
    OpenEndedMovieIsRefused(file, 0, [x], 0);
  }
}
