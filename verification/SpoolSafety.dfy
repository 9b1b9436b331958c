/**
 What a store of buffers guarantees over every run: any number of buffers, any
 interleaving of writers, readers, failures and closes.
 */
module SpoolSafety {
  import opened Common
  import opened Spool
  import opened SpoolRuns

  // ----- Runs ------------------------------------------------------------------------

  /** RAM reserved by all buffers together. */
  ghost function Reserved(slots: seq<Slot>): nat {
    if slots == [] then 0 else Reserved(slots[..|slots| - 1]) + slots[|slots| - 1].b.reserved
  }

  ghost predicate StoreOk(t: Store) {
    && (forall i {:trigger t.slots[i]} :: 0 <= i < |t.slots| ==> SlotOk(t.slots[i]))
    && t.books.used == Reserved(t.slots)
    && (t.books.used <= t.books.budget || t.books.used == 0)
  }

  ghost predicate Initial(t: Store) {
    t.slots == [] && t.books.used == 0
  }

  ghost predicate Enabled(t: Store, e: Event) {
    e.New? || (e.i < |t.slots| && SlotEnabled(t.slots[e.i], e))
  }

  ghost function Apply(t: Store, e: Event): (t': Store)
    requires StoreOk(t) && Enabled(t, e)
    ensures StoreOk(t')
  {
    match e
    case New(size, file) =>
      NewKeepsStore(t, size, file);
      var (b, k) := Created(t.books, size, file);
      Store(k, if b.Some? then t.slots + [Slot(b.value, map[], 0)] else t.slots)
    case _ =>
      StepKeepsStore(t, e);
      var (s, k) := SlotStep(t.slots[e.i], t.books, e);
      Store(k, t.slots[e.i := s])
  }

  lemma {:induction false} ReservedMoves(slots: seq<Slot>, i: nat, s: Slot)
    requires i < |slots|
    ensures Reserved(slots[i := s]) == Reserved(slots) - slots[i].b.reserved + s.b.reserved
    decreases |slots|
  {
    var n := |slots| - 1;
    if i == n {
      assert slots[i := s][..n] == slots[..n];
    } else {
      assert slots[i := s][..n] == slots[..n][i := s];
      ReservedMoves(slots[..n], i, s);
    }
  }

  lemma StepKeepsStore(t: Store, e: Event)
    requires StoreOk(t) && !e.New? && Enabled(t, e)
    ensures var (s, k) := SlotStep(t.slots[e.i], t.books, e);
            StoreOk(Store(k, t.slots[e.i := s])) && KeepsReady(t.slots[e.i].b, s.b)
  {
    var (s, k) := SlotStep(t.slots[e.i], t.books, e);
    StepIsOk(t.slots[e.i], t.books, e, s, k);
    ReservedMoves(t.slots, e.i, s);
    StoreMoves(t, e.i, s, k);
  }

  lemma StoreMoves(t: Store, i: nat, s: Slot, k: Books)
    requires StoreOk(t) && i < |t.slots| && SlotOk(s) && Balanced(t.slots[i].b, t.books, s.b, k)
    requires Reserved(t.slots[i := s]) == Reserved(t.slots) - t.slots[i].b.reserved + s.b.reserved
    ensures StoreOk(Store(k, t.slots[i := s]))
  {
  }

  lemma NewIsOk(k: Books, size: int, file: bool)
    ensures var (b, k') := Created(k, size, file);
            && (b.None? ==> k' == k)
            && (b.Some? ==> SlotOk(Slot(b.value, map[], 0)) && k'.used - k.used == b.value.reserved)
            && k'.budget == k.budget && (k'.used == k.used || k'.used <= k.budget)
  {
    var s := Slot(Buffer(size, [], false, 0, 0, 0, [], map[], 0, None, false, false), map[], 0);
    assert RamFlights(s) == {};
  }

  lemma NewKeepsStore(t: Store, size: int, file: bool)
    requires StoreOk(t)
    ensures var (b, k) := Created(t.books, size, file);
            StoreOk(Store(k, if b.Some? then t.slots + [Slot(b.value, map[], 0)] else t.slots))
  {
    NewIsOk(t.books, size, file);
    var (b, k) := Created(t.books, size, file);
    if b.Some? {
      var slots := t.slots + [Slot(b.value, map[], 0)];
      assert slots[..|slots| - 1] == t.slots;
    }
  }

  ghost predicate Possible(t: Store, run: seq<Event>)
    requires StoreOk(t)
    decreases |run|
  {
    run != [] ==> Enabled(t, run[0]) && Possible(Apply(t, run[0]), run[1..])
  }

  ghost function After(t: Store, run: seq<Event>): (t': Store)
    requires StoreOk(t) && Possible(t, run)
    ensures StoreOk(t')
    decreases |run|
  {
    if run == [] then t else After(Apply(t, run[0]), run[1..])
  }

  // ----- The ready prefix ---------------------------------------------------------------

  /** `ready` is always the length of the longest prefix of finished writes. */
  lemma ReadyIsLongestPrefix(t: Store, run: seq<Event>, i: nat)
    requires Initial(t) && StoreOk(t) && Possible(t, run) && i < |After(t, run).slots|
    ensures var b := After(t, run).slots[i].b; LongestPrefix(b.order, b.regions, b.ready)
  {
    var b := After(t, run).slots[i].b;
    assert SlotOk(After(t, run).slots[i]);
    ScanIsLongestPrefix(b.order, b.regions);
  }

  lemma KeepsReadyOn(a: Buffer, b: Buffer, c: Buffer)
    requires KeepsReady(a, b) && KeepsReady(b, c) && (b.closed || b.ready <= |b.data|)
    ensures KeepsReady(a, c)
  {
    if !c.closed && a.ready <= |a.data| {
      assert c.data[..a.ready] == c.data[..b.ready][..a.ready];
      assert b.data[..a.ready] == b.data[..b.ready][..a.ready];
    }
  }

  lemma ReadyIsThere(t: Store, i: nat)
    requires StoreOk(t) && i < |t.slots|
    ensures t.slots[i].b.closed || t.slots[i].b.ready <= |t.slots[i].b.data|
  {
    assert SlotOk(t.slots[i]);
  }

  lemma EventKeepsReady(t: Store, e: Event, i: nat)
    requires StoreOk(t) && Enabled(t, e) && i < |t.slots|
    ensures i < |Apply(t, e).slots| && KeepsReady(t.slots[i].b, Apply(t, e).slots[i].b)
  {
    if !e.New? {
      StepKeepsStore(t, e);
    }
  }

  /** No event of any run changes a byte below `ready`, or takes `ready` back. */
  lemma {:induction false} ReadyBytesNeverChange(t: Store, run: seq<Event>, i: nat)
    requires StoreOk(t) && Possible(t, run) && i < |t.slots|
    ensures i < |After(t, run).slots|
    ensures KeepsReady(t.slots[i].b, After(t, run).slots[i].b)
    decreases |run|
  {
    if run != [] {
      var u := Apply(t, run[0]);
      EventKeepsReady(t, run[0], i);
      ReadyIsThere(u, i);
      ReadyBytesNeverChange(u, run[1..], i);
      KeepsReadyOn(t.slots[i].b, u.slots[i].b, After(t, run).slots[i].b);
    }
  }

  /** A fixed-size buffer completes exactly when every byte has been written. */
  lemma CompletesExactlyWhenWhole(t: Store, run: seq<Event>, i: nat)
    requires Initial(t) && StoreOk(t) && Possible(t, run) && i < |After(t, run).slots|
    requires var b := After(t, run).slots[i].b; b.err == None && b.size >= 0
    ensures var b := After(t, run).slots[i].b;
            Completed(b).1 == None <==> forall j :: 0 <= j < b.size ==> Covered(b.order, b.regions, j)
  {
    var b := After(t, run).slots[i].b;
    assert SlotOk(After(t, run).slots[i]);
    ReadyIsLongestPrefix(t, run, i);
    if b.ready < b.size {
      assert !Covered(b.order, b.regions, b.ready);
    }
  }

  /** Once complete, a buffer has no write in progress and refuses every new one. */
  lemma NothingWritesAfterComplete(t: Store, run: seq<Event>, i: nat, id: nat, n: nat)
    requires Initial(t) && StoreOk(t) && Possible(t, run) && i < |After(t, run).slots|
    requires var s := After(t, run).slots[i]; s.b.complete && id in s.b.regions && n > 0
    ensures var s := After(t, run).slots[i]; s.flights == map[] && Begin(s.b, id, n).Refused?
  {
    var s := After(t, run).slots[i];
    assert SlotOk(s);
    forall g <- s.flights ensures false {
      UnwrittenIsAhead(s.b, g, s.flights[g].offset);
    }
    assert s.flights.Keys == {};
    if !Begin(s.b, id, n).Refused? {
      if s.b.regions[id].end < 0 {
        UnboundedIsReady(s.b, id);
      } else {
        UnwrittenIsAhead(s.b, id, s.b.regions[id].Next());
      }
    }
  }

  // ----- Readers ----------------------------------------------------------------------------

  /** A reader's steps: some events pass, then it asks for up to so many bytes. */
  datatype Ask = Ask(before: seq<Event>, n: nat)

  ghost predicate Asking(t: Store, i: nat, asks: seq<Ask>)
    requires StoreOk(t)
    decreases |asks|
  {
    asks != [] ==>
      && Possible(t, asks[0].before)
      && i < |After(t, asks[0].before).slots|
      && Asking(After(t, asks[0].before), i, asks[1..])
  }

  ghost function AfterAsks(t: Store, i: nat, asks: seq<Ask>): (t': Store)
    requires StoreOk(t) && Asking(t, i, asks)
    ensures StoreOk(t')
    decreases |asks|
  {
    if asks == [] then t else AfterAsks(After(t, asks[0].before), i, asks[1..])
  }

  /** The bytes counted as ready are there, unless the buffer was closed. */
  ghost predicate Readable(b: Buffer) {
    b.closed || b.ready <= |b.data|
  }

  /** Buffer `i` as each ask finds it. */
  ghost function Snapshots(t: Store, i: nat, asks: seq<Ask>): (bs: seq<Buffer>)
    requires StoreOk(t) && Asking(t, i, asks)
    ensures |bs| == |asks| && forall b <- bs :: Readable(b)
    decreases |asks|
  {
    if asks == [] then []
    else
      var u := After(t, asks[0].before);
      assert SlotOk(u.slots[i]);
      [u.slots[i].b] + Snapshots(u, i, asks[1..])
  }

  /** What asks of these buffers, one after another, return from `off` on. */
  ghost function Reads(bs: seq<Buffer>, asks: seq<Ask>, off: nat): Bytes
    requires |bs| == |asks| && forall b <- bs :: Readable(b)
    decreases |bs|
  {
    if bs == [] then []
    else
      assert bs[0] in bs && Readable(bs[0]);
      var p := ReadAt(bs[0], asks[0].n, off).0;
      p + Reads(bs[1..], asks[1..], off + |p|)
  }

  /** What a reader of buffer `i` starting at `off` has received. */
  ghost function Streamed(t: Store, i: nat, off: nat, asks: seq<Ask>): Bytes
    requires StoreOk(t) && Asking(t, i, asks)
  {
    Reads(Snapshots(t, i, asks), asks, off)
  }

  /** `got` lies at `off` in the ready bytes of `b`. */
  ghost predicate SliceOf(b: Buffer, off: nat, got: Bytes) {
    got == [] || (off + |got| <= b.ready <= |b.data| && got == b.data[off..off + |got|])
  }

  lemma SliceStays(c: Buffer, b: Buffer, off: nat, got: Bytes)
    requires SliceOf(c, off, got) && KeepsReady(c, b) && !b.closed && b.ready <= |b.data|
    ensures SliceOf(b, off, got)
  {
    if got != [] {
      assert got == c.data[..c.ready][off..off + |got|];
      assert b.data[..c.ready][off..off + |got|] == b.data[off..off + |got|];
    }
  }

  lemma SlicesJoin(b: Buffer, off: nat, p: Bytes, q: Bytes)
    requires SliceOf(b, off, p) && SliceOf(b, off + |p|, q)
    ensures SliceOf(b, off, p + q)
  {
    if p == [] {
      assert p + q == q;
    } else if q == [] {
      assert p + q == p;
    } else {
      assert b.data[off..off + |p|] + b.data[off + |p|..off + |p| + |q|] == b.data[off..off + |p| + |q|];
    }
  }

  lemma {:induction false} AsksKeepReady(t: Store, i: nat, asks: seq<Ask>, end: Store)
    requires StoreOk(t) && Asking(t, i, asks) && i < |t.slots| && end == AfterAsks(t, i, asks)
    ensures i < |end.slots| && KeepsReady(t.slots[i].b, end.slots[i].b)
    decreases |asks|
  {
    if asks != [] {
      var u := After(t, asks[0].before);
      ReadyBytesNeverChange(t, asks[0].before, i);
      ReadyIsThere(u, i);
      AsksKeepReady(u, i, asks[1..], end);
      KeepsReadyOn(t.slots[i].b, u.slots[i].b, end.slots[i].b);
    }
  }

  lemma ReadIsSlice(b: Buffer, n: nat, off: nat)
    requires b.closed || b.ready <= |b.data|
    ensures SliceOf(b, off, ReadAt(b, n, off).0)
  {
  }

  lemma StreamJoins(c: Buffer, b: Buffer, off: nat, p: Bytes, q: Bytes)
    requires SliceOf(c, off, p) && KeepsReady(c, b) && (b.closed || (b.ready <= |b.data| && SliceOf(b, off + |p|, q)))
    ensures b.closed || SliceOf(b, off, p + q)
  {
    if !b.closed {
      SliceStays(c, b, off, p);
      SlicesJoin(b, off, p, q);
    }
  }

  lemma {:induction false} ReadsAreSlice(bs: seq<Buffer>, asks: seq<Ask>, off: nat, end: Buffer)
    requires |bs| == |asks| && (forall b <- bs :: Readable(b) && KeepsReady(b, end)) && Readable(end)
    ensures end.closed || SliceOf(end, off, Reads(bs, asks, off))
    decreases |bs|
  {
    if bs != [] {
      assert bs[0] in bs && Readable(bs[0]);
      var p := ReadAt(bs[0], asks[0].n, off).0;
      ReadIsSlice(bs[0], asks[0].n, off);
      ReadsAreSlice(bs[1..], asks[1..], off + |p|, end);
      StreamJoins(bs[0], end, off, p, Reads(bs[1..], asks[1..], off + |p|));
    }
  }

  lemma {:induction false} SnapshotsKeepReady(t: Store, i: nat, asks: seq<Ask>, end: Store, bs: seq<Buffer>)
    requires StoreOk(t) && Asking(t, i, asks) && i < |t.slots| && end == AfterAsks(t, i, asks) && bs == Snapshots(t, i, asks)
    ensures i < |end.slots| && forall b <- bs :: KeepsReady(b, end.slots[i].b)
    decreases |asks|
  {
    AsksKeepReady(t, i, asks, end);
    if asks != [] {
      var u := After(t, asks[0].before);
      var rest := Snapshots(u, i, asks[1..]);
      AsksKeepReady(u, i, asks[1..], end);
      SnapshotsKeepReady(u, i, asks[1..], end, rest);
      assert bs == [u.slots[i].b] + rest;
    }
  }

  lemma StreamIsSlice(t: Store, i: nat, off: nat, asks: seq<Ask>, end: Store)
    requires StoreOk(t) && Asking(t, i, asks) && i < |t.slots| && end == AfterAsks(t, i, asks)
    ensures i < |end.slots| && (end.slots[i].b.closed || SliceOf(end.slots[i].b, off, Streamed(t, i, off, asks)))
  {
    var bs := Snapshots(t, i, asks);
    SnapshotsKeepReady(t, i, asks, end, bs);
    ReadyIsThere(end, i);
    ReadsAreSlice(bs, asks, off, end.slots[i].b);
  }

  /**
   Whatever a reader received, over any number of reads between any events, is
   the slice of the final contents that starts where the reader started.
   */
  lemma ReadersSeeFinalContents(t: Store, run: seq<Event>, i: nat, off: nat, asks: seq<Ask>, rest: seq<Event>)
    requires Initial(t) && StoreOk(t) && Possible(t, run) && i < |After(t, run).slots|
    requires Asking(After(t, run), i, asks) && Possible(AfterAsks(After(t, run), i, asks), rest)
    ensures var end := After(AfterAsks(After(t, run), i, asks), rest);
            && i < |end.slots|
            && (end.slots[i].b.closed || SliceOf(end.slots[i].b, off, Streamed(After(t, run), i, off, asks)))
            && (end.slots[i].b.complete ==> end.slots[i].b.ready == end.slots[i].b.size)
  {
    var u := After(t, run);
    var v := AfterAsks(u, i, asks);
    StreamIsSlice(u, i, off, asks, v);
    ReadyBytesNeverChange(v, rest, i);
    var end := After(v, rest);
    ReadyIsThere(end, i);
    if !end.slots[i].b.closed {
      SliceStays(v.slots[i].b, end.slots[i].b, off, Streamed(u, i, off, asks));
    }
    assert SlotOk(end.slots[i]);
  }

  // ----- Failures ------------------------------------------------------------------------------

  /** A failed buffer stays as far as it got, stays incomplete, and keeps its error until it is closed. */
  ghost predicate StaysFailed(b: Buffer, c: Buffer) {
    && (b.closed ==> c.closed)
    && (b.err.Some? ==> c.ready == b.ready && c.complete == b.complete && (c.err == b.err || (c.closed && c.err == Some(ErrClosed))))
  }

  lemma StepStaysFailed(s: Slot, k: Books, e: Event, s': Slot, k': Books)
    requires SlotOk(s) && SlotEnabled(s, e) && (s', k') == SlotStep(s, k, e)
    ensures StaysFailed(s.b, s'.b)
  {
  }

  lemma EventStaysFailed(t: Store, e: Event, i: nat)
    requires StoreOk(t) && Enabled(t, e) && i < |t.slots|
    ensures i < |Apply(t, e).slots| && StaysFailed(t.slots[i].b, Apply(t, e).slots[i].b)
  {
    if !e.New? && e.i == i {
      assert SlotOk(t.slots[i]);
      var (s, k) := SlotStep(t.slots[i], t.books, e);
      StepStaysFailed(t.slots[i], t.books, e, s, k);
    }
  }

  lemma StaysFailedOn(a: Buffer, b: Buffer, c: Buffer)
    requires StaysFailed(a, b) && StaysFailed(b, c)
    ensures StaysFailed(a, c)
  {
  }

  /** A write still under way when its buffer fails adds nothing, and nothing completes the buffer any more, in any run. */
  lemma {:induction false} FailedStaysFailed(t: Store, run: seq<Event>, i: nat, end: Store)
    requires StoreOk(t) && Possible(t, run) && i < |t.slots| && end == After(t, run)
    ensures i < |end.slots| && StaysFailed(t.slots[i].b, end.slots[i].b)
    decreases |run|
  {
    if run != [] {
      var u := Apply(t, run[0]);
      EventStaysFailed(t, run[0], i);
      FailedStaysFailed(u, run[1..], i, end);
      StaysFailedOn(t.slots[i].b, u.slots[i].b, end.slots[i].b);
    }
  }

  // ----- The end of the data --------------------------------------------------------------------

  /** Nobody fails the buffer with the very error that means the end. */
  ghost predicate NoFalseEnd(run: seq<Event>) {
    forall e <- run :: e.Fail? ==> e.e != ErrEOF
  }

  ghost predicate NoneEnded(t: Store) {
    forall i :: 0 <= i < |t.slots| ==> t.slots[i].b.err != Some(ErrEOF)
  }

  lemma AppendEndsNone(b: Buffer, k: Books, id: nat, p: Bytes, spill: bool, write: bool, garbage: Bytes)
    requires id in b.regions && forall k :: 0 <= k < |b.order| ==> b.order[k] in b.regions
    requires b.err != Some(ErrEOF)
    ensures Appended(b, k, id, p, spill, write, garbage).0.err != Some(ErrEOF)
  {
    NoRoomExactlyWhen(b, k, b.regions[id].written + |p|, spill);
    var (c, l, e) := MadeRoom(b, k, b.regions[id].written + |p|, spill);
  }

  lemma StepEndsNone(s: Slot, k: Books, e: Event, s': Slot, k': Books)
    requires SlotOk(s) && SlotEnabled(s, e) && s.b.err != Some(ErrEOF) && (e.Fail? ==> e.e != ErrEOF)
    requires (s', k') == SlotStep(s, k, e)
    ensures s'.b.err != Some(ErrEOF)
  {
    if e.Append? {
      AppendEndsNone(s.b, k, e.id, e.p, e.spill, e.write, e.garbage);
    }
  }

  lemma SlotEndsNone(t: Store, i: nat, s: Slot, k: Books)
    requires i < |t.slots| && NoneEnded(t) && s.b.err != Some(ErrEOF)
    ensures NoneEnded(Store(k, t.slots[i := s]))
  {
  }

  lemma EventEndsNone(t: Store, e: Event)
    requires StoreOk(t) && Enabled(t, e) && NoneEnded(t) && (e.Fail? ==> e.e != ErrEOF)
    ensures NoneEnded(Apply(t, e))
  {
    if !e.New? {
      assert SlotOk(t.slots[e.i]);
      var (s, k) := SlotStep(t.slots[e.i], t.books, e);
      StepEndsNone(t.slots[e.i], t.books, e, s, k);
      SlotEndsNone(t, e.i, s, k);
    }
  }

  lemma {:induction false} RunEndsNone(t: Store, run: seq<Event>)
    requires StoreOk(t) && Possible(t, run) && NoneEnded(t) && NoFalseEnd(run)
    ensures NoneEnded(After(t, run))
    decreases |run|
  {
    if run != [] {
      assert run[0] in run;
      EventEndsNone(t, run[0]);
      RunEndsNone(Apply(t, run[0]), run[1..]);
    }
  }

  lemma {:induction false} AsksEndNone(t: Store, i: nat, asks: seq<Ask>)
    requires StoreOk(t) && Asking(t, i, asks) && NoneEnded(t) && forall a <- asks :: NoFalseEnd(a.before)
    ensures NoneEnded(AfterAsks(t, i, asks))
    decreases |asks|
  {
    if asks != [] {
      assert asks[0] in asks;
      RunEndsNone(t, asks[0].before);
      AsksEndNone(After(t, asks[0].before), i, asks[1..]);
    }
  }

  lemma WholeAtEnd(b: Buffer, off: nat, got: Bytes, n: nat)
    requires !b.closed && b.ready <= |b.data| && b.err != Some(ErrEOF) && SliceOf(b, off, got)
    requires ReadAt(b, n, off + |got|).1 == Some(ErrEOF)
    ensures b.complete
    ensures off <= b.ready ==> got + ReadAt(b, n, off + |got|).0 == b.data[off..b.ready]
  {
    var p := ReadAt(b, n, off + |got|).0;
    ReadEndsExactly(b, n, off + |got|);
    ReadIsSlice(b, n, off + |got|);
    if off <= b.ready {
      SlicesJoin(b, off, got, p);
    }
  }

  /** What a reader of buffer `i` is given next, after it received `got` from `off` on. */
  ghost function Given(t: Store, i: nat, off: nat, got: Bytes, n: nat): (Bytes, Option<Error>)
    requires StoreOk(t) && i < |t.slots|
  {
    assert SlotOk(t.slots[i]);
    ReadAt(t.slots[i].b, n, off + |got|)
  }

  /** `got` and what comes last are the whole of the buffer from `off` on. */
  ghost predicate IsRest(b: Buffer, off: nat, got: Bytes, last: Bytes) {
    && b.complete && b.ready == b.size
    && (off <= b.size ==> b.size <= |b.data| && got + last == b.data[off..b.size])
  }

  lemma EndFrom(u: Store, i: nat, off: nat, asks: seq<Ask>, n: nat)
    requires StoreOk(u) && NoneEnded(u) && Asking(u, i, asks) && (forall a <- asks :: NoFalseEnd(a.before)) && i < |u.slots|
    requires i < |AfterAsks(u, i, asks).slots| && Given(AfterAsks(u, i, asks), i, off, Streamed(u, i, off, asks), n).1 == Some(ErrEOF)
    ensures var v, got := AfterAsks(u, i, asks), Streamed(u, i, off, asks);
            IsRest(v.slots[i].b, off, got, Given(v, i, off, got, n).0)
  {
    var v := AfterAsks(u, i, asks);
    AsksEndNone(u, i, asks);
    StreamIsSlice(u, i, off, asks, v);
    assert SlotOk(v.slots[i]);
    WholeAtEnd(v.slots[i].b, off, Streamed(u, i, off, asks), n);
  }

  /**
   The end of the data is told truly: a reader that is told of it, after any reads
   between any events, has received everything from its start to the final size of
   a complete buffer.
   */
  lemma EndMeansWhole(t: Store, run: seq<Event>, i: nat, off: nat, asks: seq<Ask>, n: nat)
    requires Initial(t) && StoreOk(t) && Possible(t, run) && i < |After(t, run).slots|
    requires Asking(After(t, run), i, asks) && i < |AfterAsks(After(t, run), i, asks).slots|
    requires NoFalseEnd(run) && forall a <- asks :: NoFalseEnd(a.before)
    requires Given(AfterAsks(After(t, run), i, asks), i, off, Streamed(After(t, run), i, off, asks), n).1 == Some(ErrEOF)
    ensures var v, got := AfterAsks(After(t, run), i, asks), Streamed(After(t, run), i, off, asks);
            IsRest(v.slots[i].b, off, got, Given(v, i, off, got, n).0)
  {
    RunEndsNone(t, run);
    EndFrom(After(t, run), i, off, asks, n);
  }

  /** In every run the list that a new writer's binary search runs over is sorted. */
  lemma WritersStaySorted(t: Store, run: seq<Event>, i: nat)
    requires Initial(t) && StoreOk(t) && Possible(t, run) && i < |After(t, run).slots|
    ensures var b := After(t, run).slots[i].b;
            (forall k :: 0 <= k < |b.order| ==> b.order[k] in b.regions) && Sorted(b.order, b.regions)
  {
    var s := After(t, run).slots[i];
    assert SlotOk(s);
    SeparateIsSorted(s.b.order, s.b.regions);
  }

  // ----- RAM ----------------------------------------------------------------------------------

  /**
   The budget's books are the sum of what the buffers reserve, and within the
   budget; RAM in use by a call inside the buffer is never spilled away.
   */
  lemma RamIsConserved(t: Store, run: seq<Event>)
    requires Initial(t) && StoreOk(t) && Possible(t, run)
    ensures var u := After(t, run);
            && u.books.used == Reserved(u.slots)
            && (u.books.used <= u.books.budget || u.books.used == 0)
            && forall i :: 0 <= i < |u.slots| ==>
                 var s := u.slots[i];
                 && (s.b.pinned > 0 ==> !s.b.onDisk)
                 && s.b.pinned == |RamFlights(s)| + s.reading
                 && (s.b.size < 0 && !s.b.closed && !s.b.onDisk ==> s.b.capacity == s.b.reserved)
  {
    var u := After(t, run);
    forall i | 0 <= i < |u.slots| ensures SlotOk(u.slots[i]) {
    }
  }

  /** A buffer has RAM only within the limit for one file. */
  ghost predicate WithinLimit(k: Books, b: Buffer) {
    b.reserved == 0 || b.reserved <= k.fileLimit
  }

  ghost predicate AllWithinLimit(t: Store) {
    forall i :: 0 <= i < |t.slots| ==> WithinLimit(t.books, t.slots[i].b)
  }

  lemma AppendWithinLimit(b: Buffer, k: Books, id: nat, p: Bytes, spill: bool, write: bool, garbage: Bytes)
    requires id in b.regions && forall k :: 0 <= k < |b.order| ==> b.order[k] in b.regions
    requires WithinLimit(k, b)
    ensures var (c, l, e) := Appended(b, k, id, p, spill, write, garbage); l.fileLimit == k.fileLimit && WithinLimit(k, c)
  {
    var (c, l, e) := MadeRoom(b, k, b.regions[id].written + |p|, spill);
  }

  lemma StepWithinLimit(s: Slot, k: Books, e: Event, s': Slot, k': Books)
    requires SlotOk(s) && SlotEnabled(s, e) && WithinLimit(k, s.b) && (s', k') == SlotStep(s, k, e)
    ensures k'.fileLimit == k.fileLimit && WithinLimit(k, s'.b)
  {
    if e.Append? {
      AppendWithinLimit(s.b, k, e.id, e.p, e.spill, e.write, e.garbage);
    }
  }

  lemma EventWithinLimit(t: Store, e: Event)
    requires StoreOk(t) && Enabled(t, e) && AllWithinLimit(t)
    ensures AllWithinLimit(Apply(t, e))
  {
    if e.New? {
      MadeExactly(t.books, e.size, e.file);
    } else {
      assert SlotOk(t.slots[e.i]);
      var (s, k) := SlotStep(t.slots[e.i], t.books, e);
      StepWithinLimit(t.slots[e.i], t.books, e, s, k);
    }
  }

  /** In every run no buffer has more RAM than one file may have. */
  lemma {:induction false} FileLimitIsKept(t: Store, run: seq<Event>, end: Store)
    requires StoreOk(t) && Possible(t, run) && AllWithinLimit(t) && end == After(t, run)
    ensures AllWithinLimit(end)
    decreases |run|
  {
    if run != [] {
      EventWithinLimit(t, run[0]);
      FileLimitIsKept(Apply(t, run[0]), run[1..], end);
    }
  }

  lemma {:induction false} NothingReserved(slots: seq<Slot>)
    requires forall i :: 0 <= i < |slots| ==> slots[i].b.reserved == 0
    ensures Reserved(slots) == 0
    decreases |slots|
  {
    if slots != [] {
      NothingReserved(slots[..|slots| - 1]);
    }
  }

  /** When every buffer is closed and no call is inside one, all RAM is back, exactly once. */
  lemma ClosedStoreIsEmpty(t: Store, run: seq<Event>)
    requires Initial(t) && StoreOk(t) && Possible(t, run)
    requires forall i :: 0 <= i < |After(t, run).slots| ==>
               var s := After(t, run).slots[i]; s.b.closed && s.flights == map[] && s.reading == 0
    ensures After(t, run).books.used == 0
  {
    var u := After(t, run);
    forall i | 0 <= i < |u.slots| ensures u.slots[i].b.reserved == 0 {
      assert SlotOk(u.slots[i]);
      assert RamFlights(u.slots[i]) == {};
    }
    NothingReserved(u.slots);
  }

  // ----- A run that completes -------------------------------------------------------------------

  /** `run` leads from `t` to `u`. */
  ghost predicate Leads(t: Store, run: seq<Event>, u: Store) {
    StoreOk(t) && Possible(t, run) && After(t, run) == u
  }

  lemma Extend(t: Store, e: Event, rest: seq<Event>, u: Store)
    requires StoreOk(t) && Enabled(t, e) && Leads(Apply(t, e), rest, u)
    ensures Leads(t, [e] + rest, u)
  {
    assert ([e] + rest)[1..] == rest;
  }

  /** A store with the one slot `s`. */
  ghost function Only(k: Books, s: Slot): Store {
    Store(k, [s])
  }

  lemma ExtendOnly(k: Books, s: Slot, e: Event, k': Books, s': Slot, rest: seq<Event>, u: Store)
    requires StoreOk(Only(k, s)) && !e.New? && e.i == 0 && SlotEnabled(s, e) && SlotStep(s, k, e) == (s', k')
    requires Leads(Only(k', s'), rest, u)
    ensures Leads(Only(k, s), [e] + rest, u)
  {
    assert Only(k, s).slots[0 := s'] == [s'];
    Extend(Only(k, s), e, rest, u);
  }

  /** A buffer of one byte: `open` its writer, `pinned` a write of it, `x` the byte, `written` if it is finished. */
  ghost function OneByte(open: bool, pinned: nat, x: Byte, written: nat, complete: bool): Buffer {
    Buffer(1, [x], false, 1, 1, pinned, if open then [0] else [], if open then map[0 := Region(0, 1, written)] else map[], written, None, complete, false)
  }

  lemma OneByteStarts(k: Books)
    requires k.fileLimit >= 1 && k.budget >= 1 && k.used == 0
    ensures Created(k, 1, true) == (Some(OneByte(false, 0, 0, 0, false)), k.(used := 1))
    ensures Open(OneByte(false, 0, 0, 0, false), 0, 0, 1) == OneByte(true, 0, 0, 0, false)
    ensures MayOpen(OneByte(false, 0, 0, 0, false), 0, 0, 1)
  {
    assert Created(k, 1, true).0.value.data == [0];
  }

  lemma OneByteEnds(k: Books)
    ensures Ended(OneByte(true, 1, 7, 0, false), k, 0, 1, true) == (OneByte(true, 0, 7, 1, false), k, None)
    ensures Completed(OneByte(true, 0, 7, 1, false)) == (OneByte(true, 0, 7, 1, true), None)
  {
    var b := OneByte(true, 0, 7, 0, false);
    var c := b.(regions := map[0 := Region(0, 1, 1)]);
    assert b.regions[0 := b.regions[0].(written := 1)] == c.regions;
    assert c.order[1..] == [];
    assert Scan(c.order, c.regions, 0) == 1 by {
      assert Scan(c.order[1..], c.regions, 1) == 1;
    }
  }

  /** The write of the byte 7, with so much of it copied. */
  ghost function Writing(x: Byte, copied: nat): Slot {
    Slot(OneByte(true, 1, x, 0, false), map[0 := Flight([7], 0, true, copied)], 0)
  }

  lemma OneByteSteps(k: Books)
    requires StoreOk(Only(k, Slot(OneByte(true, 0, 0, 0, false), map[], 0)))
    ensures SlotOk(Slot(OneByte(true, 0, 0, 0, false), map[], 0))
    ensures SlotStep(Slot(OneByte(true, 0, 0, 0, false), map[], 0), k, BeginWrite(0, 0, [7])) == (Writing(0, 0), k)
  {
    assert SlotOk(Only(k, Slot(OneByte(true, 0, 0, 0, false), map[], 0)).slots[0]);
  }

  lemma ByteIsCopied(k: Books)
    requires SlotOk(Writing(0, 0))
    ensures SlotStep(Writing(0, 0), k, CopyByte(0, 0)) == (Writing(7, 1), k)
  {
    var f := Flight([7], 0, true, 0);
    assert Overwrite([0], 0, [7]) == [7];
    assert Copied(OneByte(true, 1, 0, 0, false), 0, 7) == OneByte(true, 1, 7, 0, false);
    assert map[0 := f][0 := f.(copied := 1)] == map[0 := f.(copied := 1)];
  }

  lemma ByteIsFinished(k: Books)
    requires SlotOk(Writing(7, 1))
    ensures SlotStep(Writing(7, 1), k, EndWrite(0, 0)) == (Slot(OneByte(true, 0, 7, 1, false), map[], 0), k)
  {
    OneByteEnds(k);
    assert map[0 := Flight([7], 0, true, 1)] - {0} == map[];
  }

  lemma WholeBufferCompletes(k: Books)
    requires SlotOk(Slot(OneByte(true, 0, 7, 1, false), map[], 0))
    ensures SlotStep(Slot(OneByte(true, 0, 7, 1, false), map[], 0), k, Complete(0)) == (Slot(OneByte(true, 0, 7, 1, true), map[], 0), k)
  {
    OneByteEnds(k);
  }

  lemma StepStore(k: Books, s: Slot, e: Event, k': Books, s': Slot)
    requires StoreOk(Only(k, s)) && !e.New? && e.i == 0 && SlotEnabled(s, e)
    requires SlotOk(s) && SlotStep(s, k, e) == (s', k')
    ensures StoreOk(Only(k', s')) && SlotOk(s')
  {
    StepKeepsStore(Only(k, s), e);
    assert Only(k, s).slots[0 := s'] == [s'];
    assert SlotOk(Only(k', s').slots[0]);
  }

  /** One step to a sound slot, before a run from there. */
  lemma StepThen(k: Books, s: Slot, e: Event, s': Slot, rest: seq<Event>, u: Store)
    requires StoreOk(Only(k, s)) && SlotOk(s) && !e.New? && e.i == 0 && SlotEnabled(s, e)
    requires SlotStep(s, k, e) == (s', k) && Leads(Only(k, s'), rest, u)
    ensures Leads(Only(k, s), [e] + rest, u)
  {
    ExtendOnly(k, s, e, k, s', rest, u);
  }

  ghost function Opened(): Slot {
    Slot(OneByte(true, 0, 0, 0, false), map[], 0)
  }

  ghost function Whole(complete: bool): Slot {
    Slot(OneByte(true, 0, 7, 1, complete), map[], 0)
  }

  lemma WholeEnds(k: Books) returns (run: seq<Event>)
    requires StoreOk(Only(k, Whole(false))) && SlotOk(Whole(false))
    ensures Leads(Only(k, Whole(false)), run, Only(k, Whole(true)))
  {
    WholeBufferCompletes(k);
    StepStore(k, Whole(false), Complete(0), k, Whole(true));
    run := [];
    assert Leads(Only(k, Whole(true)), run, Only(k, Whole(true)));
    StepThen(k, Whole(false), Complete(0), Whole(true), run, Only(k, Whole(true)));
    run := [Complete(0)] + run;
  }

  lemma WritingEnds(k: Books) returns (run: seq<Event>)
    requires StoreOk(Only(k, Writing(7, 1))) && SlotOk(Writing(7, 1))
    ensures Leads(Only(k, Writing(7, 1)), run, Only(k, Whole(true)))
  {
    ByteIsFinished(k);
    StepStore(k, Writing(7, 1), EndWrite(0, 0), k, Whole(false));
    run := WholeEnds(k);
    StepThen(k, Writing(7, 1), EndWrite(0, 0), Whole(false), run, Only(k, Whole(true)));
    run := [EndWrite(0, 0)] + run;
  }

  lemma WritingBegins(k: Books) returns (run: seq<Event>)
    requires StoreOk(Only(k, Opened()))
    ensures Leads(Only(k, Opened()), run, Only(k, Whole(true)))
  {
    OneByteSteps(k);
    StepStore(k, Opened(), BeginWrite(0, 0, [7]), k, Writing(0, 0));
    ByteIsCopied(k);
    StepStore(k, Writing(0, 0), CopyByte(0, 0), k, Writing(7, 1));
    run := WritingEnds(k);
    StepThen(k, Writing(0, 0), CopyByte(0, 0), Writing(7, 1), run, Only(k, Whole(true)));
    run := [CopyByte(0, 0)] + run;
    StepThen(k, Opened(), BeginWrite(0, 0, [7]), Writing(0, 0), run, Only(k, Whole(true)));
    run := [BeginWrite(0, 0, [7])] + run;
  }

  ghost function Made(): Slot {
    Slot(OneByte(false, 0, 0, 0, false), map[], 0)
  }

  lemma MadeOpens(k: Books) returns (run: seq<Event>)
    requires StoreOk(Only(k, Made())) && SlotOk(Made())
    requires Open(OneByte(false, 0, 0, 0, false), 0, 0, 1) == OneByte(true, 0, 0, 0, false)
    requires MayOpen(OneByte(false, 0, 0, 0, false), 0, 0, 1)
    ensures Leads(Only(k, Made()), run, Only(k, Whole(true)))
  {
    var e := OpenWriter(0, 0, 0, 1);
    StepStore(k, Made(), e, k, Opened());
    run := WritingBegins(k);
    StepThen(k, Made(), e, Opened(), run, Only(k, Whole(true)));
    run := [e] + run;
  }

  lemma NewIsMade(k: Books)
    requires k.fileLimit >= 1 && k.budget >= 1 && k.used == 0
    ensures StoreOk(Store(k, [])) && Apply(Store(k, []), New(1, true)) == Only(k.(used := 1), Made()) && SlotOk(Made())
  {
    OneByteStarts(k);
    NewKeepsStore(Store(k, []), 1, true);
    assert [] + [Made()] == [Made()];
    assert SlotOk(Only(k.(used := 1), Made()).slots[0]);
  }

  /** Buffers do complete: a run that makes one, writes it and completes it. */
  lemma BuffersCanComplete(k: Books)
    requires k.fileLimit >= 1 && k.budget >= 1 && k.used == 0
    ensures Initial(Store(k, [])) && exists run :: Leads(Store(k, []), run, Only(k.(used := 1), Whole(true)))
  {
    var l := k.(used := 1);
    OneByteStarts(k);
    NewIsMade(k);
    var run := MadeOpens(l);
    Extend(Store(k, []), New(1, true), run, Only(l, Whole(true)));
  }
}
