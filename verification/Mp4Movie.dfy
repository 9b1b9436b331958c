/**
 The dimensions of a movie: the first usable video sample description under
 moov, trak, mdia, minf, stbl and stsd. No byte outside the movie is read.
 */
module Mp4Movie {
  import opened Common
  import opened Mp4

  /** Nothing usable, a box list that does not tile its range, or dimensions. */
  datatype Answer = Absent | Broken | Measured(width: nat, height: nat)

  const Trak: Bytes := [0x74, 0x72, 0x61, 0x6b]
  const Mdia: Bytes := [0x6d, 0x64, 0x69, 0x61]
  const Hdlr: Bytes := [0x68, 0x64, 0x6c, 0x72]
  const Vide: Bytes := [0x76, 0x69, 0x64, 0x65]
  const Minf: Bytes := [0x6d, 0x69, 0x6e, 0x66]
  const Stbl: Bytes := [0x73, 0x74, 0x62, 0x6c]
  const Stsd: Bytes := [0x73, 0x74, 0x73, 0x64]

  function U16(b: Bytes, at: nat): nat
    requires at + 2 <= |b|
  {
    (b[at] as int) * 256 + (b[at + 1] as int)
  }

  // ----- Answers, layer by layer ---------------------------------------------------------

  /** The first answer other than `Absent`. */
  function First(ys: seq<Box>, f: Box -> Answer): Answer {
    if ys == [] then Absent else if !f(ys[0]).Absent? then f(ys[0]) else First(ys[1..], f)
  }

  /** The first answer from the boxes inside `x`, after its first `skip` bytes. */
  function Under(b: Bytes, x: Box, skip: nat, f: Box -> Answer): Answer {
    if x.end > |b| then Broken
    else
      match Boxes(b, x.start + skip, x.end)
      case None => Broken
      case Some(ys) => if |ys| > MaxBoxes then Broken else First(ys, f)
  }

  function InEntry(b: Bytes, codecs: set<Bytes>, x: Box): Answer {
    if x.kind !in codecs || x.start + 28 > x.end || x.end > |b| then Absent
    else
      var w, h := U16(b, x.start + 24), U16(b, x.start + 26);
      if w > 0 && h > 0 then Measured(w, h) else Absent
  }

  predicate VideoHandler(b: Bytes, x: Box) {
    x.kind == Hdlr && x.start + 12 <= x.end <= |b| && b[x.start + 8..x.start + 12] == Vide
  }

  predicate SaysVideo(b: Bytes, ys: seq<Box>) {
    exists i :: 0 <= i < |ys| && VideoHandler(b, ys[i])
  }

  /** The last `minf`. */
  function LastMinf(ys: seq<Box>): Option<Box> {
    if ys == [] then None
    else if ys[|ys| - 1].kind == Minf then Some(ys[|ys| - 1])
    else LastMinf(ys[..|ys| - 1])
  }

  /** The boxes on the path, from the movie down to a sample description's entry. */
  datatype Layer = Movie | Track | Media | Table | Description | Entry

  function Depth(layer: Layer): nat {
    match layer
    case Movie => 5
    case Track => 4
    case Media => 3
    case Table => 2
    case Description => 1
    case Entry => 0
  }

  /** The next layer of the path, what a box of a layer is called, and how many of its bytes come before its boxes. */
  function Below(layer: Layer): Layer {
    match layer
    case Movie => Track
    case Track => Media
    case Media => Table
    case Table => Description
    case _ => Entry
  }

  function Name(layer: Layer): Bytes {
    match layer
    case Movie => Moov
    case Track => Trak
    case Media => Mdia
    case Table => Stbl
    case _ => Stsd
  }

  function Skip(layer: Layer): nat {
    if layer == Description then 8 else 0
  }

  /** The answer from a box where one of the given layer is wanted. */
  function In(b: Bytes, codecs: set<Bytes>, layer: Layer, x: Box): Answer
    decreases Depth(layer)
  {
    if layer == Entry then InEntry(b, codecs, x)
    else if x.kind != Name(layer) || x.start + Skip(layer) > x.end then Absent
    else if layer != Media then
      var below := Below(layer);
      Under(b, x, Skip(layer), y => In(b, codecs, below, y))
    else if x.end > |b| then Broken
    else
      match Boxes(b, x.start, x.end)
      case None => Broken
      case Some(ys) =>
        if |ys| > MaxBoxes then Broken
        else if !SaysVideo(b, ys) || LastMinf(ys).None? then Absent
        else Under(b, LastMinf(ys).value, 0, y => In(b, codecs, Table, y))
  }

  function Whole(b: Bytes): Box {
    Box([], 0, 0, |b|)
  }

  function Dimensions(movie: Bytes, codecs: set<Bytes>): Answer {
    Under(movie, Whole(movie), 0, y => In(movie, codecs, Movie, y))
  }

  // ----- The descent --------------------------------------------------------------------------

  lemma FirstOn(ys: seq<Box>, f: Box -> Answer, i: nat)
    requires i < |ys|
    ensures First(ys[i..], f) == if f(ys[i]).Absent? then First(ys[i + 1..], f) else f(ys[i])
  {
    var rest := ys[i..];
    assert rest[0] == ys[i] && rest[1..] == ys[i + 1..];
    assert First(rest, f) == if !f(rest[0]).Absent? then f(rest[0]) else First(rest[1..], f);
  }

  /** The boxes inside `x`; none where they do not tile it. */
  method Children(b: Bytes, x: Box, skip: nat) returns (ys: Option<seq<Box>>)
    requires x.end <= |b|
    ensures ys.Some? ==> forall f :: Under(b, x, skip, f) == First(ys.value, f)
    ensures ys.Some? ==> forall y <- ys.value :: y.start <= y.end <= |b|
    ensures ys.None? ==> forall f :: Under(b, x, skip, f) == Broken
  {
    ys := ReadBoxes(b, x.start + skip, x.end);
    if ys.Some? {
      BoxesTile(b, x.start + skip, x.end);
    }
  }

  method ReadEntry(b: Bytes, codecs: set<Bytes>, x: Box) returns (r: Answer)
    requires x.end <= |b|
    ensures r == InEntry(b, codecs, x)
  {
    if x.kind !in codecs || x.start + 28 > x.end {
      return Absent;
    }
    var w, h := U16(b, x.start + 24), U16(b, x.start + 26);
    if w > 0 && h > 0 {
      return Measured(w, h);
    }
    return Absent;
  }

  /** Whether some handler says video, and the last `minf`. */
  method Handlers(b: Bytes, ys: seq<Box>) returns (video: bool, minf: Option<Box>)
    requires forall y <- ys :: y.start <= y.end <= |b|
    ensures video == SaysVideo(b, ys) && minf == LastMinf(ys)
    ensures minf.Some? ==> minf.value.end <= |b|
  {
    video, minf := false, None;
    for i := 0 to |ys|
      invariant video <==> exists j :: 0 <= j < i && VideoHandler(b, ys[j])
      invariant minf == LastMinf(ys[..i]) && (minf.Some? ==> minf.value.end <= |b|)
    {
      assert ys[..i + 1][..i] == ys[..i];
      var y := ys[i];
      assert y in ys;
      if y.kind == Hdlr && y.start + 12 <= y.end && b[y.start + 8..y.start + 12] == Vide {
        assert VideoHandler(b, ys[i]);
        video := true;
      }
      if y.kind == Minf {
        minf := Some(y);
      }
    }
    assert ys[..|ys|] == ys;
  }

  /** The loop over the boxes inside `x`, looking for one of the given layer. */
  method FindUnder(b: Bytes, codecs: set<Bytes>, layer: Layer, x: Box, skip: nat) returns (r: Answer)
    requires x.end <= |b|
    ensures r == Under(b, x, skip, y => In(b, codecs, layer, y))
    decreases Depth(layer), 1
  {
    var ys := Children(b, x, skip);
    if ys.None? {
      return Broken;
    }
    ghost var f := y => In(b, codecs, layer, y);
    assert ys.value[0..] == ys.value;
    for i := 0 to |ys.value|
      invariant First(ys.value, f) == First(ys.value[i..], f)
    {
      FirstOn(ys.value, f, i);
      r := FindIn(b, codecs, layer, ys.value[i]);
      if !r.Absent? {
        return;
      }
    }
    return Absent;
  }

  /** One box, and what is inside it if it is of the given layer. */
  method FindIn(b: Bytes, codecs: set<Bytes>, layer: Layer, x: Box) returns (r: Answer)
    requires x.end <= |b|
    ensures r == In(b, codecs, layer, x)
    decreases Depth(layer), 0
  {
    if layer == Entry {
      r := ReadEntry(b, codecs, x);
    } else if x.kind != Name(layer) || x.start + Skip(layer) > x.end {
      r := Absent;
    } else if layer == Media {
      r := FindInMedia(b, codecs, x);
    } else {
      r := FindUnder(b, codecs, Below(layer), x, Skip(layer));
    }
  }

  method FindInMedia(b: Bytes, codecs: set<Bytes>, x: Box) returns (r: Answer)
    requires x.kind == Mdia && x.start <= x.end <= |b|
    ensures r == In(b, codecs, Media, x)
    decreases Depth(Table), 2
  {
    var ys := ReadBoxes(b, x.start, x.end);
    if ys.None? {
      return Broken;
    }
    BoxesTile(b, x.start, x.end);
    var video, minf := Handlers(b, ys.value);
    if !video || minf.None? {
      return Absent;
    }
    r := FindUnder(b, codecs, Table, minf.value, 0);
  }

  method MovieDimensions(movie: Bytes, codecs: set<Bytes>) returns (r: Answer)
    ensures r == Dimensions(movie, codecs)
  {
    r := FindUnder(movie, codecs, Movie, Whole(movie), 0);
  }

  // ----- What an answer means -------------------------------------------------------------------

  /** `y` is one of the boxes that tile `x` after its first `skip` bytes. */
  ghost predicate Child(b: Bytes, x: Box, skip: nat, y: Box) {
    x.end <= |b| && Boxes(b, x.start + skip, x.end).Some? && y in Boxes(b, x.start + skip, x.end).value
  }

  lemma {:induction false} FirstIsSome(ys: seq<Box>, f: Box -> Answer) returns (y: Box)
    requires First(ys, f).Measured?
    ensures y in ys && f(y) == First(ys, f)
  {
    if !f(ys[0]).Absent? {
      y := ys[0];
    } else {
      y := FirstIsSome(ys[1..], f);
    }
  }

  lemma UnderIsSome(b: Bytes, x: Box, skip: nat, f: Box -> Answer) returns (y: Box)
    requires Under(b, x, skip, f).Measured?
    ensures Child(b, x, skip, y) && f(y) == Under(b, x, skip, f)
  {
    y := FirstIsSome(Boxes(b, x.start + skip, x.end).value, f);
  }

  lemma {:induction false} LastMinfIsIn(ys: seq<Box>)
    ensures LastMinf(ys).Some? ==> LastMinf(ys).value in ys && LastMinf(ys).value.kind == Minf
  {
    if ys != [] {
      LastMinfIsIn(ys[..|ys| - 1]);
    }
  }

  lemma InsideIsSome(b: Bytes, codecs: set<Bytes>, layer: Layer, x: Box) returns (y: Box)
    requires layer != Media && layer != Entry && In(b, codecs, layer, x).Measured?
    ensures x.kind == Name(layer) && Child(b, x, Skip(layer), y) && In(b, codecs, Below(layer), y) == In(b, codecs, layer, x)
  {
    var below := Below(layer);
    y := UnderIsSome(b, x, Skip(layer), z => In(b, codecs, below, z));
  }

  lemma MdiaHoldsMinf(b: Bytes, codecs: set<Bytes>, mdia: Box) returns (minf: Box)
    requires In(b, codecs, Media, mdia).Measured?
    ensures Child(b, mdia, 0, minf) && minf.kind == Minf && exists h :: Child(b, mdia, 0, h) && VideoHandler(b, h)
    ensures Under(b, minf, 0, y => In(b, codecs, Table, y)) == In(b, codecs, Media, mdia)
  {
    var ys := Boxes(b, mdia.start, mdia.end).value;
    LastMinfIsIn(ys);
    minf := LastMinf(ys).value;
    var i :| 0 <= i < |ys| && VideoHandler(b, ys[i]);
    assert ys[i] in ys && Child(b, mdia, 0, ys[i]);
  }

  lemma MediaIsOnPath(b: Bytes, codecs: set<Bytes>, mdia: Box) returns (minf: Box, stbl: Box)
    requires In(b, codecs, Media, mdia).Measured?
    ensures mdia.kind == Mdia
    ensures Child(b, mdia, 0, minf) && minf.kind == Minf && exists h :: Child(b, mdia, 0, h) && VideoHandler(b, h)
    ensures Child(b, minf, 0, stbl) && In(b, codecs, Table, stbl) == In(b, codecs, Media, mdia)
  {
    minf := MdiaHoldsMinf(b, codecs, mdia);
    stbl := UnderIsSome(b, minf, 0, y => In(b, codecs, Table, y));
  }

  lemma EntryIsMeasured(b: Bytes, codecs: set<Bytes>, entry: Box)
    requires In(b, codecs, Entry, entry).Measured?
    ensures entry.kind in codecs && entry.start + 28 <= entry.end <= |b|
    ensures In(b, codecs, Entry, entry) == Measured(U16(b, entry.start + 24), U16(b, entry.start + 26))
    ensures U16(b, entry.start + 24) > 0 && U16(b, entry.start + 26) > 0
  {
  }

  /** From the file down to the media of a track. */
  lemma MediaIsReached(b: Bytes, codecs: set<Bytes>, movie: Layer, track: Layer) returns (moov: Box, trak: Box, mdia: Box)
    requires movie == Movie && track == Track
    requires Dimensions(b, codecs).Measured?
    ensures Child(b, Whole(b), 0, moov) && moov.kind == Moov
    ensures Child(b, moov, 0, trak) && trak.kind == Trak
    ensures Child(b, trak, 0, mdia) && In(b, codecs, Media, mdia) == Dimensions(b, codecs)
  {
    moov := UnderIsSome(b, Whole(b), 0, y => In(b, codecs, movie, y));
    trak := InsideIsSome(b, codecs, movie, moov);
    mdia := InsideIsSome(b, codecs, track, trak);
  }

  /** From a sample table down to the entry. */
  lemma EntryIsReached(b: Bytes, codecs: set<Bytes>, table: Layer, description: Layer, stbl: Box) returns (stsd: Box, entry: Box)
    requires table == Table && description == Description
    requires In(b, codecs, table, stbl).Measured?
    ensures stbl.kind == Stbl && Child(b, stbl, 0, stsd) && stsd.kind == Stsd
    ensures Child(b, stsd, 8, entry) && entry.kind in codecs && entry.start + 28 <= entry.end <= |b|
    ensures In(b, codecs, table, stbl) == Measured(U16(b, entry.start + 24), U16(b, entry.start + 26))
    ensures U16(b, entry.start + 24) > 0 && U16(b, entry.start + 26) > 0
  {
    stsd := InsideIsSome(b, codecs, table, stbl);
    entry := InsideIsSome(b, codecs, description, stsd);
    EntryIsMeasured(b, codecs, entry);
  }

  /**
   Dimensions come from a sample description of a known codec that lies in the movie
   at the end of the whole path of boxes, in a track that some handler calls video.
   */
  lemma DimensionsAreOnPath(b: Bytes, codecs: set<Bytes>)
    returns (moov: Box, trak: Box, mdia: Box, minf: Box, stbl: Box, stsd: Box, entry: Box)
    requires Dimensions(b, codecs).Measured?
    ensures Child(b, Whole(b), 0, moov) && moov.kind == Moov
    ensures Child(b, moov, 0, trak) && trak.kind == Trak
    ensures Child(b, trak, 0, mdia) && mdia.kind == Mdia
    ensures Child(b, mdia, 0, minf) && minf.kind == Minf && exists h :: Child(b, mdia, 0, h) && VideoHandler(b, h)
    ensures Child(b, minf, 0, stbl) && stbl.kind == Stbl
    ensures Child(b, stbl, 0, stsd) && stsd.kind == Stsd
    ensures Child(b, stsd, 8, entry) && entry.kind in codecs && entry.start + 28 <= entry.end <= |b|
    ensures Dimensions(b, codecs) == Measured(U16(b, entry.start + 24), U16(b, entry.start + 26))
    ensures U16(b, entry.start + 24) > 0 && U16(b, entry.start + 26) > 0
  {
    moov, trak, mdia := MediaIsReached(b, codecs, Movie, Track);
    minf, stbl := MediaIsOnPath(b, codecs, mdia);
    stsd, entry := EntryIsReached(b, codecs, Table, Description, stbl);
  }

  // ----- Nothing is overlooked -----------------------------------------------------------------

  /** The first answer is that of a box before which no box has one; there is none exactly when no box has one. */
  lemma {:induction false} FirstIsFirst(ys: seq<Box>, f: Box -> Answer)
    ensures First(ys, f).Absent? <==> forall y <- ys :: f(y).Absent?
    ensures !First(ys, f).Absent? ==>
              exists i :: 0 <= i < |ys| && f(ys[i]) == First(ys, f) && forall j :: 0 <= j < i ==> f(ys[j]).Absent?
  {
    if ys != [] {
      FirstIsFirst(ys[1..], f);
      assert forall y :: y in ys <==> y == ys[0] || y in ys[1..];
      if f(ys[0]).Absent? && !First(ys, f).Absent? {
        var i :| 0 <= i < |ys[1..]| && f(ys[1..][i]) == First(ys[1..], f) && forall j :: 0 <= j < i ==> f(ys[1..][j]).Absent?;
        assert f(ys[i + 1]) == First(ys, f);
        assert forall j :: 0 < j < i + 1 ==> ys[j] == ys[1..][j - 1];
      }
    }
  }

  /** Of several `minf` the last is used. */
  lemma {:induction false} LastMinfIsLast(ys: seq<Box>)
    ensures LastMinf(ys).None? <==> forall y <- ys :: y.kind != Minf
    ensures LastMinf(ys).Some? ==>
              exists i :: 0 <= i < |ys| && ys[i] == LastMinf(ys).value && ys[i].kind == Minf && forall j :: i < j < |ys| ==> ys[j].kind != Minf
  {
    if ys != [] {
      var n := |ys| - 1;
      LastMinfIsLast(ys[..n]);
      assert ys == ys[..n] + [ys[n]];
      if ys[n].kind != Minf && LastMinf(ys).Some? {
        var i :| 0 <= i < n && ys[..n][i] == LastMinf(ys[..n]).value && ys[..n][i].kind == Minf && forall j :: i < j < n ==> ys[..n][j].kind != Minf;
        assert ys[i] == LastMinf(ys).value && forall j :: i < j < |ys| ==> ys[j].kind != Minf by {
          assert forall j :: i < j < n ==> ys[j] == ys[..n][j];
        }
      }
    }
  }

  /** Boxes of `x` that have no answer among them have none each. */
  lemma NoneUnder(b: Bytes, x: Box, skip: nat, f: Box -> Answer, y: Box)
    requires Under(b, x, skip, f).Absent? && Child(b, x, skip, y)
    ensures f(y).Absent?
  {
    FirstIsFirst(Boxes(b, x.start + skip, x.end).value, f);
  }

  lemma NoneInside(b: Bytes, codecs: set<Bytes>, layer: Layer, x: Box, y: Box)
    requires layer != Media && layer != Entry && In(b, codecs, layer, x).Absent?
    requires x.kind == Name(layer) && x.start + Skip(layer) <= x.end && Child(b, x, Skip(layer), y)
    ensures In(b, codecs, Below(layer), y).Absent?
  {
    var below := Below(layer);
    NoneUnder(b, x, Skip(layer), z => In(b, codecs, below, z), y);
  }

  /** A handler of the media says video, and `minf` is the last of its kind there. */
  ghost predicate IsVideo(b: Bytes, mdia: Box, minf: Box) {
    && mdia.kind == Mdia && mdia.start <= mdia.end <= |b| && Boxes(b, mdia.start, mdia.end).Some?
    && SaysVideo(b, Boxes(b, mdia.start, mdia.end).value) && LastMinf(Boxes(b, mdia.start, mdia.end).value) == Some(minf)
  }

  lemma NoneInMedia(b: Bytes, codecs: set<Bytes>, mdia: Box, minf: Box, y: Box)
    requires In(b, codecs, Media, mdia).Absent? && IsVideo(b, mdia, minf) && Child(b, minf, 0, y)
    ensures In(b, codecs, Table, y).Absent?
  {
    NoneUnder(b, minf, 0, z => In(b, codecs, Table, z), y);
  }

  /** A sample description that gives dimensions. */
  ghost predicate Usable(b: Bytes, codecs: set<Bytes>, entry: Box) {
    && entry.kind in codecs && entry.start + 28 <= entry.end <= |b|
    && U16(b, entry.start + 24) > 0 && U16(b, entry.start + 26) > 0
  }

  /** The whole path down to a usable sample description. */
  ghost predicate IsPath(b: Bytes, codecs: set<Bytes>, moov: Box, trak: Box, mdia: Box, minf: Box, stbl: Box, stsd: Box, entry: Box) {
    && Child(b, Whole(b), 0, moov) && moov.kind == Moov && moov.start <= moov.end
    && Child(b, moov, 0, trak) && trak.kind == Trak && trak.start <= trak.end
    && Child(b, trak, 0, mdia) && IsVideo(b, mdia, minf)
    && Child(b, minf, 0, stbl) && stbl.kind == Stbl && stbl.start <= stbl.end
    && Child(b, stbl, 0, stsd) && stsd.kind == Stsd && stsd.start + 8 <= stsd.end
    && Child(b, stsd, 8, entry) && Usable(b, codecs, entry)
  }

  lemma NoneToMedia(b: Bytes, codecs: set<Bytes>, movie: Layer, track: Layer, moov: Box, trak: Box, mdia: Box)
    requires movie == Movie && track == Track && Dimensions(b, codecs).Absent?
    requires Child(b, Whole(b), 0, moov) && moov.kind == Moov && moov.start <= moov.end
    requires Child(b, moov, 0, trak) && trak.kind == Trak && trak.start <= trak.end && Child(b, trak, 0, mdia)
    ensures In(b, codecs, Media, mdia).Absent?
  {
    NoneUnder(b, Whole(b), 0, z => In(b, codecs, movie, z), moov);
    NoneInside(b, codecs, movie, moov, trak);
    NoneInside(b, codecs, track, trak, mdia);
  }

  lemma NoneToEntry(b: Bytes, codecs: set<Bytes>, table: Layer, description: Layer, stbl: Box, stsd: Box, entry: Box)
    requires table == Table && description == Description && In(b, codecs, table, stbl).Absent?
    requires stbl.kind == Stbl && stbl.start <= stbl.end && Child(b, stbl, 0, stsd)
    requires stsd.kind == Stsd && stsd.start + 8 <= stsd.end && Child(b, stsd, 8, entry)
    ensures !Usable(b, codecs, entry)
  {
    NoneInside(b, codecs, table, stbl, stsd);
    NoneInside(b, codecs, description, stsd, entry);
  }

  /** If no dimensions are found, and no box is broken, there is no path to a usable sample description in any track that says video. */
  lemma AbsentMeansNoPath(b: Bytes, codecs: set<Bytes>, moov: Box, trak: Box, mdia: Box, minf: Box, stbl: Box, stsd: Box, entry: Box)
    requires Dimensions(b, codecs).Absent?
    ensures !IsPath(b, codecs, moov, trak, mdia, minf, stbl, stsd, entry)
  {
    if Child(b, Whole(b), 0, moov) && IsPath(b, codecs, moov, trak, mdia, minf, stbl, stsd, entry) {
      NoneToMedia(b, codecs, Movie, Track, moov, trak, mdia);
      NoneInMedia(b, codecs, mdia, minf, stbl);
      NoneToEntry(b, codecs, Table, Description, stbl, stsd, entry);
      assert false;
    }
  }

  /** Where a list of boxes is broken the search ends: it does not tile its range, or is too long, or the first answer inside it is that. */
  lemma BrokenMeansUntiled(b: Bytes, x: Box, skip: nat, f: Box -> Answer)
    requires x.end <= |b|
    ensures Under(b, x, skip, f).Broken? <==>
              var ys := Boxes(b, x.start + skip, x.end);
              ys.None? || |ys.value| > MaxBoxes || First(ys.value, f).Broken?
  {
  }

  /** Numbers are in network order. */
  lemma NetworkOrder()
    ensures U16([0x02, 0xd0], 0) == 720 && U32([0x00, 0x01, 0x02, 0x03], 0) == 0x10203
    ensures U64([0, 0, 0, 1, 0, 0, 0, 2], 0) == 0x1_0000_0002
    ensures HeaderAt([0, 0, 0, 1, 0x6d, 0x64, 0x61, 0x74, 0, 0, 0, 0, 0, 0, 1, 0], 0) == Size(0x100)
  {
  }
}
