/**
 The search for the movie box through windows of the file, and how far it reaches.
 */
module Mp4Search {
  import opened Common
  import opened Mp4

  const WindowSize := 65536
  const Windows := 32

  /** What a read of `n` bytes at `at` returns: all of them, or those there are. */
  function ReadAt(file: Bytes, at: nat, n: nat): (r: Bytes)
    ensures |r| <= n
  {
    if at >= |file| then [] else if at + n <= |file| then file[at..at + n] else file[at..]
  }

  lemma HeaderInWindow(file: Bytes, offset: nat, local: nat)
    requires var data := ReadAt(file, offset, WindowSize); local + 8 <= |data| && !HeaderAt(data, local).CutOff?
    ensures var data := ReadAt(file, offset, WindowSize);
            HeaderAt(file, offset + local) == HeaderAt(data, local)
            && offset + local + 8 <= |file| && (IsMovie(file, offset + local) <==> IsMovie(data, local))
  {
    var data := ReadAt(file, offset, WindowSize);
    assert forall i :: 0 <= i < |data| ==> data[i] == file[offset + i];
    assert data[local + 4..local + 8] == file[offset + local + 4..offset + local + 8];
  }

  /** A header cut off by the window lies near its end; at its beginning, near the end of the file. */
  lemma CutOffIsNearEnd(file: Bytes, offset: nat, local: nat)
    requires var data := ReadAt(file, offset, WindowSize); HeaderAt(data, local).CutOff?
    ensures local + 16 > |ReadAt(file, offset, WindowSize)|
    ensures local == 0 ==> HeaderAt(file, offset).CutOff?
  {
    var data := ReadAt(file, offset, WindowSize);
    if offset + WindowSize > |file| {
      assert forall i :: 0 <= i < |data| ==> data[i] == file[offset + i];
    }
  }

  /** A search through the window at `offset` from `local` on: what it finds, or where the next box begins. */
  function Window(file: Bytes, offset: nat, local: nat): (r: (Option<Search>, nat))
    ensures r.0 == None ==> local <= r.1
    decreases if local < WindowSize then WindowSize - local else 0
  {
    var data := ReadAt(file, offset, WindowSize);
    match HeaderAt(data, local)
    case CutOff => (None, local)
    case Invalid => (Some(Malformed), local)
    case Size(n) =>
      if IsMovie(data, local) then (Some(if n > LargestMovie then Malformed else Found(offset + local, n)), local)
      else Window(file, offset, local + n)
  }

  lemma WindowStep(file: Bytes, offset: nat, local: nat)
    ensures Window(file, offset, local) ==
            var data := ReadAt(file, offset, WindowSize);
            match HeaderAt(data, local)
            case CutOff => (None, local)
            case Invalid => (Some(Malformed), local)
            case Size(n) =>
              if IsMovie(data, local) then (Some(if n > LargestMovie then Malformed else Found(offset + local, n)), local)
              else Window(file, offset, local + n)
  {
  }

  /** `r` is what the walk from `at` finds, or a place further along it. */
  ghost predicate OnWalk(file: Bytes, offset: nat, at: nat, r: (Option<Search>, nat)) {
    match r.0
    case Some(found) => !found.Missing? && found == FirstMovie(file, at)
    case None => FirstMovie(file, at) == FirstMovie(file, offset + r.1)
  }

  /** The window stops at `local`: cut off there, at a malformed box, or at a movie. */
  predicate Stops(data: Bytes, local: nat) {
    var h := HeaderAt(data, local);
    h.CutOff? || h.Invalid? || IsMovie(data, local)
  }

  lemma WindowStops(file: Bytes, offset: nat, local: nat, r: (Option<Search>, nat))
    requires Stops(ReadAt(file, offset, WindowSize), local) && r == Window(file, offset, local)
    ensures OnWalk(file, offset, offset + local, r)
  {
    WindowStep(file, offset, local);
    if !HeaderAt(ReadAt(file, offset, WindowSize), local).CutOff? {
      HeaderInWindow(file, offset, local);
      MovieStep(file, offset + local);
    }
  }

  lemma WindowGoesOn(file: Bytes, offset: nat, local: nat, n: nat, r: (Option<Search>, nat))
    requires !Stops(ReadAt(file, offset, WindowSize), local) && HeaderAt(ReadAt(file, offset, WindowSize), local) == Size(n)
    requires OnWalk(file, offset, offset + local + n, r)
    ensures OnWalk(file, offset, offset + local, r)
  {
    HeaderInWindow(file, offset, local);
    MovieStep(file, offset + local);
  }

  lemma WindowMoves(file: Bytes, offset: nat, local: nat) returns (n: nat)
    requires !Stops(ReadAt(file, offset, WindowSize), local)
    ensures HeaderAt(ReadAt(file, offset, WindowSize), local) == Size(n) && n > 0 && local < WindowSize
    ensures Window(file, offset, local) == Window(file, offset, local + n)
  {
    n := HeaderAt(ReadAt(file, offset, WindowSize), local).n;
  }

  /** One window is a stretch of the walk. */
  lemma {:induction false} WindowIsWalk(file: Bytes, offset: nat, local: nat, r: (Option<Search>, nat))
    requires r == Window(file, offset, local)
    ensures OnWalk(file, offset, offset + local, r)
    decreases if local < WindowSize then WindowSize - local else 0
  {
    if Stops(ReadAt(file, offset, WindowSize), local) {
      WindowStops(file, offset, local, r);
    } else {
      var n := WindowMoves(file, offset, local);
      WindowIsWalk(file, offset, local + n, r);
      WindowGoesOn(file, offset, local, n, r);
    }
  }

  lemma {:induction false} WindowEndsCutOff(file: Bytes, offset: nat, local: nat)
    ensures var (found, next) := Window(file, offset, local);
            found == None ==> HeaderAt(ReadAt(file, offset, WindowSize), next).CutOff?
    decreases if local < WindowSize then WindowSize - local else 0
  {
    var data := ReadAt(file, offset, WindowSize);
    var h := HeaderAt(data, local);
    WindowStep(file, offset, local);
    if h.Size? && !IsMovie(data, local) {
      WindowEndsCutOff(file, offset, local + h.n);
    }
  }

  // ----- Window after window ----------------------------------------------------------------

  /** What a look at one place finds, or how far on the next place is. */
  type Look = nat -> (Option<Search>, nat)

  /** The search through `n` looks from `offset` on. */
  function Through(look: Look, offset: nat, n: nat): Search
    decreases n
  {
    if n == 0 then Missing
    else
      var (found, local) := look(offset);
      if found.Some? then found.value else if local == 0 then Missing else Through(look, offset + local, n - 1)
  }

  /** Where the window after the next `n` begins, if each reaches `hop` further. */
  function Begin(hop: nat -> nat, offset: nat, n: nat): (b: nat)
    ensures offset <= b
    decreases n
  {
    if n == 0 then offset else Begin(hop, offset + hop(offset), n - 1)
  }

  ghost predicate FollowsAt(look: Look, first: nat -> Search, o: nat) {
    match look(o).0
    case Some(found) => !found.Missing? && found == first(o)
    case None => first(o) == first(o + look(o).1)
  }

  /** Every look follows the walk `first`. */
  ghost predicate Follows(look: Look, first: nat -> Search) {
    forall o: nat {:trigger FollowsAt(look, first, o)} :: FollowsAt(look, first, o)
  }

  ghost predicate EndsAt(look: Look, first: nat -> Search, o: nat) {
    && (first(o).Found? ==> o <= first(o).at)
    && (look(o) == (None, 0) ==> !first(o).Found?)
    && (look(o).0 == None && first(o).Found? ==> look(o).1 >= Stride)
  }

  /** Movies lie ahead, and a look that goes nowhere, or not far, has seen the end. */
  ghost predicate Ends(look: Look, first: nat -> Search) {
    forall o: nat {:trigger EndsAt(look, first, o)} :: EndsAt(look, first, o)
  }

  ghost predicate HopsAt(look: Look, hop: nat -> nat, o: nat) {
    match look(o).0
    case None => look(o).1 == hop(o)
    case Some(Found(at, _)) => at < o + hop(o)
    case Some(_) => true
  }

  /** A look that finds nothing goes `hop` further; one that finds a movie finds it before there. */
  ghost predicate Hops(look: Look, hop: nat -> nat) {
    forall o: nat {:trigger HopsAt(look, hop, o)} :: HopsAt(look, hop, o)
  }

  lemma {:induction false} ThroughIsWalk(look: Look, first: nat -> Search, offset: nat, n: nat)
    requires Follows(look, first)
    ensures !Through(look, offset, n).Missing? ==> Through(look, offset, n) == first(offset)
    decreases n
  {
    if n > 0 {
      assert FollowsAt(look, first, offset);
      if look(offset).0 == None {
        ThroughIsWalk(look, first, offset + look(offset).1, n - 1);
      }
    }
  }

  lemma {:induction false} FindsBeforeLast(look: Look, first: nat -> Search, hop: nat -> nat, offset: nat, n: nat)
    requires Follows(look, first) && Ends(look, first) && Hops(look, hop) && first(offset).Found?
    ensures Through(look, offset, n) == first(offset) <==> first(offset).at < Begin(hop, offset, n)
    decreases n
  {
    assert EndsAt(look, first, offset);
    if n > 0 {
      assert FollowsAt(look, first, offset) && HopsAt(look, hop, offset);
      if look(offset).0 == None {
        FindsBeforeLast(look, first, hop, offset + hop(offset), n - 1);
      }
    }
  }

  lemma {:induction false} MissesFarOnly(look: Look, first: nat -> Search, offset: nat, n: nat)
    requires Follows(look, first) && Ends(look, first) && first(offset).Found? && Through(look, offset, n).Missing?
    ensures first(offset).at >= offset + n * Stride
    decreases n
  {
    assert EndsAt(look, first, offset);
    if n > 0 {
      assert FollowsAt(look, first, offset);
      MissesFarOnly(look, first, offset + look(offset).1, n - 1);
      assert n * Stride == (n - 1) * Stride + Stride;
    }
  }

  // ----- The windows of a file ----------------------------------------------------------------

  function WindowOf(file: Bytes): Look {
    (offset: nat) => Window(file, offset, 0)
  }

  function WalkOf(file: Bytes): nat -> Search {
    (at: nat) => FirstMovie(file, at)
  }

  /** The search through `n` windows from `offset` on. */
  function Windowed(file: Bytes, offset: nat, n: nat): Search {
    Through(WindowOf(file), offset, n)
  }

  /** How far the sizes of the boxes from `local` on lead out of the window, whatever the boxes are called. */
  function Hop(file: Bytes, offset: nat, local: nat): (next: nat)
    ensures local <= next
    decreases if local < WindowSize then WindowSize - local else 0
  {
    var h := HeaderAt(ReadAt(file, offset, WindowSize), local);
    if h.Size? then Hop(file, offset, local + h.n) else local
  }

  function HopOf(file: Bytes): nat -> nat {
    (offset: nat) => Hop(file, offset, 0)
  }

  lemma {:induction false} WindowHops(file: Bytes, offset: nat, local: nat)
    ensures var (found, next) := Window(file, offset, local);
            && (found == None ==> next == Hop(file, offset, local))
            && (found.Some? && found.value.Found? ==> found.value.at < offset + Hop(file, offset, local))
    decreases if local < WindowSize then WindowSize - local else 0
  {
    var h := HeaderAt(ReadAt(file, offset, WindowSize), local);
    if h.Size? {
      WindowHops(file, offset, local + h.n);
    }
  }

  lemma WindowsHop(file: Bytes)
    ensures Hops(WindowOf(file), HopOf(file))
  {
    forall o: nat ensures HopsAt(WindowOf(file), HopOf(file), o) {
      WindowHops(file, o, 0);
    }
  }

  lemma WindowsFollowWalk(file: Bytes)
    ensures Follows(WindowOf(file), WalkOf(file))
  {
    forall o: nat ensures FollowsAt(WindowOf(file), WalkOf(file), o) {
      WindowIsWalk(file, o, 0, Window(file, o, 0));
    }
  }

  lemma WindowSeesEnd(file: Bytes, o: nat, r: (Option<Search>, nat))
    requires r == Window(file, o, 0)
    ensures r.0 == None && FirstMovie(file, o).Found? ==> r.1 >= Stride
  {
    if r.0 == None && r.1 < Stride {
      WindowIsWalk(file, o, 0, r);
      WindowEndsCutOff(file, o, 0);
      WindowAdvances(file, o, r.1);
      MovieStep(file, o + r.1);
    }
  }

  lemma WindowsSeeEnd(file: Bytes)
    ensures Ends(WindowOf(file), WalkOf(file))
  {
    forall o: nat ensures EndsAt(WindowOf(file), WalkOf(file), o) {
      if FirstMovie(file, o).Found? {
        FoundIsAhead(file, o);
      }
      WindowSeesEnd(file, o, Window(file, o, 0));
    }
  }

  /** How far each window brings the search at least, while there is more of the file. */
  const Stride := 65521

  lemma WindowAdvances(file: Bytes, offset: nat, local: nat)
    requires HeaderAt(ReadAt(file, offset, WindowSize), local).CutOff?
    ensures local >= Stride || HeaderAt(file, offset + local).CutOff?
  {
    CutOffIsNearEnd(file, offset, local);
    var data := ReadAt(file, offset, WindowSize);
    if offset + WindowSize > |file| {
      assert forall i :: 0 <= i < |data| ==> data[i] == file[offset + i];
    }
  }

  lemma WindowOn(file: Bytes, offset: nat, local: nat)
    requires HeaderAt(ReadAt(file, offset, WindowSize), local).Size? && !IsMovie(ReadAt(file, offset, WindowSize), local)
    ensures Window(file, offset, local) == Window(file, offset, local + HeaderAt(ReadAt(file, offset, WindowSize), local).n)
  {
  }

  /** The boxes whose headers lie in the window at `offset`; `local` is where the next one begins. */
  method ScanWindow(file: Bytes, offset: nat) returns (r: Option<Search>, local: nat)
    ensures (r, local) == Window(file, offset, 0)
  {
    var data := ReadAt(file, offset, WindowSize);
    local := 0;
    while !HeaderAt(data, local).CutOff?
      invariant Window(file, offset, 0) == Window(file, offset, local)
      decreases if local < |data| then |data| - local else 0
    {
      if HeaderAt(data, local).Invalid? {
        return Some(Malformed), local;
      }
      var size := HeaderAt(data, local).n;
      if IsMovie(data, local) {
        return Some(if size > LargestMovie then Malformed else Found(offset + local, size)), local;
      }
      WindowOn(file, offset, local);
      local := local + size;
    }
    return None, local;
  }

  /**
   The search through windows. Whatever it finds is what the walk over the whole file
   finds. It finds a movie if and only if that begins before the last window's boxes
   end, which only their sizes decide; and those are never less than the given stride.
   */
  lemma SearchIsWalk(file: Bytes)
    ensures var r := Windowed(file, 0, Windows);
            && (!r.Missing? ==> r == FirstMovie(file, 0))
            && (FirstMovie(file, 0).Found? ==>
                  && (r == FirstMovie(file, 0) <==> FirstMovie(file, 0).at < Begin(HopOf(file), 0, Windows))
                  && (r.Missing? ==> FirstMovie(file, 0).at >= Windows * Stride))
  {
    var look, first, hop := WindowOf(file), WalkOf(file), HopOf(file);
    WindowsFollowWalk(file);
    WindowsSeeEnd(file);
    WindowsHop(file);
    ThroughIsWalk(look, first, 0, Windows);
    assert first(0) == FirstMovie(file, 0);
    if first(0).Found? {
      FindsBeforeLast(look, first, hop, 0, Windows);
      if Through(look, 0, Windows).Missing? {
        MissesFarOnly(look, first, 0, Windows);
      }
    }
  }

  lemma ThroughStep(look: Look, offset: nat, n: nat, found: Option<Search>, local: nat)
    requires n > 0 && look(offset) == (found, local)
    ensures Through(look, offset, n) ==
            if found.Some? then found.value else if local == 0 then Missing else Through(look, offset + local, n - 1)
  {
  }

  ghost predicate SeenAt(file: Bytes, look: Look, o: nat) {
    look(o) == Window(file, o, 0)
  }

  /** `look` is a search through one window of `file`. */
  ghost predicate Sees(file: Bytes, look: Look) {
    forall o: nat {:trigger SeenAt(file, look, o)} :: SeenAt(file, look, o)
  }

  /** Window after window, and the boxes of each. */
  method FindThrough(file: Bytes, ghost look: Look, n: nat) returns (r: Search)
    requires Sees(file, look)
    ensures r == Through(look, 0, n)
  {
    ghost var whole := Through(look, 0, n);
    var offset: nat, count := 0, n;
    while count > 0
      invariant Through(look, offset, count) == whole
    {
      var found, local := ScanWindow(file, offset);
      assert SeenAt(file, look, offset);
      ThroughStep(look, offset, count, found, local);
      if found.Some? {
        return found.value;
      }
      if local == 0 {
        return Missing;
      }
      offset, count := offset + local, count - 1;
    }
    return Missing;
  }

  method FindMovie(file: Bytes) returns (r: Search)
    ensures r == Windowed(file, 0, Windows)
    ensures !r.Missing? ==> r == FirstMovie(file, 0)
    ensures FirstMovie(file, 0).Found? ==> (r == FirstMovie(file, 0) <==> FirstMovie(file, 0).at < Begin(HopOf(file), 0, Windows))
    ensures r.Missing? && FirstMovie(file, 0).Found? ==> FirstMovie(file, 0).at >= Windows * Stride
  {
    SearchIsWalk(file);
    WindowsAreSeen(file);
    r := FindThrough(file, WindowOf(file), Windows);
  }

  lemma WindowsAreSeen(file: Bytes)
    ensures Sees(file, WindowOf(file))
  {
    forall o: nat ensures SeenAt(file, WindowOf(file), o) {
    }
  }

  // ----- A movie out of reach ---------------------------------------------------------------

  /** The file begins with `n` boxes, each as long as a window, none of them a movie. */
  ghost predicate Stacked(file: Bytes, n: nat) {
    forall i: nat {:trigger FillsWindow(file, i)} :: i < n ==> FillsWindow(file, i)
  }

  ghost predicate FillsWindow(file: Bytes, i: nat) {
    (i + 1) * WindowSize <= |file| && U32(file, i * WindowSize) == WindowSize && !IsMovie(file, i * WindowSize)
  }

  lemma WindowIsFilled(file: Bytes, i: nat)
    requires FillsWindow(file, i)
    ensures Window(file, i * WindowSize, 0) == (None, WindowSize)
    ensures HeaderAt(file, i * WindowSize) == Size(WindowSize)
  {
    var offset := i * WindowSize;
    var data := ReadAt(file, offset, WindowSize);
    assert |data| == WindowSize && forall k :: 0 <= k < |data| ==> data[k] == file[offset + k];
    assert HeaderAt(data, 0) == Size(WindowSize);
    HeaderInWindow(file, offset, 0);
    WindowOn(file, offset, 0);
    assert Window(file, offset, WindowSize) == (None, WindowSize);
  }

  lemma {:induction false} StackIsPassed(file: Bytes, i: nat, n: nat)
    requires Stacked(file, n) && i <= n
    ensures Windowed(file, i * WindowSize, n - i) == Missing
    ensures FirstMovie(file, i * WindowSize) == FirstMovie(file, n * WindowSize)
    decreases n - i
  {
    if i < n {
      assert FillsWindow(file, i);
      WindowIsFilled(file, i);
      MovieStep(file, i * WindowSize);
      assert (i + 1) * WindowSize == i * WindowSize + WindowSize;
      StackIsPassed(file, i + 1, n);
      assert WindowOf(file)(i * WindowSize) == (None, WindowSize);
    }
  }

  /** After that many whole windows of other boxes a movie is not found any more. */
  lemma LateMovieIsMissed(file: Bytes)
    requires Stacked(file, Windows) && HeaderAt(file, Windows * WindowSize) == Size(8) && IsMovie(file, Windows * WindowSize)
    ensures FirstMovie(file, 0) == Found(Windows * WindowSize, 8)
    ensures Windowed(file, 0, Windows) == Missing
  {
    StackIsPassed(file, 0, Windows);
  }

  /** One such box, of zeros. */
  function Filler(): (b: Bytes)
    ensures |b| == WindowSize && U32(b, 0) == WindowSize && !IsMovie(b, 0)
  {
    var b := [0, 1, 0, 0] + seq(WindowSize - 4, _ => 0);
    assert b[4..8][0] != Moov[0];
    b
  }

  function Fillers(n: nat): (b: Bytes)
    ensures |b| == n * WindowSize
  {
    if n == 0 then [] else
      assert n * WindowSize == (n - 1) * WindowSize + WindowSize;
      Fillers(n - 1) + Filler()
  }

  lemma FillerAt(before: Bytes, after: Bytes, i: nat)
    requires |before| == i * WindowSize
    ensures FillsWindow(before + Filler() + after, i)
  {
    var file, at, b := before + Filler() + after, i * WindowSize, Filler();
    assert (i + 1) * WindowSize == at + WindowSize;
    assert forall k :: 0 <= k < WindowSize ==> file[at + k] == b[k];
    assert file[at + 4..at + 8] == b[4..8];
  }

  lemma {:induction false} FillersStack(n: nat, after: Bytes)
    ensures Stacked(Fillers(n) + after, n)
    decreases n
  {
    if n > 0 {
      var file := Fillers(n) + after;
      assert file == Fillers(n - 1) + (Filler() + after);
      FillersStack(n - 1, Filler() + after);
      assert file == Fillers(n - 1) + Filler() + after;
      FillerAt(Fillers(n - 1), after, n - 1);
      forall i: nat | i < n ensures FillsWindow(file, i) {
      }
    }
  }

  lemma LastBoxIsMovie(file: Bytes, before: Bytes, last: Bytes, at: nat)
    requires last == [0, 0, 0, 8] + Moov && file == before + last && |before| == at
    ensures HeaderAt(file, at) == Size(8) && IsMovie(file, at)
  {
    assert file[at + 4..at + 8] == Moov;
    assert file[at] == 0 && file[at + 1] == 0 && file[at + 2] == 0 && file[at + 3] == 8;
  }

  /** There is such a file: a little over two megabytes. */
  lemma SomeMovieIsMissed() returns (file: Bytes)
    ensures |file| == Windows * WindowSize + 8
    ensures FirstMovie(file, 0) == Found(Windows * WindowSize, 8) && Windowed(file, 0, Windows) == Missing
  {
    var n: nat := Windows;
    var last: Bytes := [0, 0, 0, 8] + Moov;
    file := Fillers(n) + last;
    FillersStack(n, last);
    LastBoxIsMovie(file, Fillers(n), last, n * WindowSize);
    LateMovieIsMissed(file);
  }
}
