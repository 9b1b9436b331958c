/**
 All buffers of one store, with their writers and readers interleaved.

 A slot is a buffer together with the calls now inside it: writes whose copy is
 in progress, and streaming reads holding the buffer's RAM pinned.
 */
module SpoolRuns {
  import opened Common
  import opened Spool

  /** A `Write` between its two locked sections. */
  datatype Flight = Flight(bytes: Bytes, offset: nat, ram: bool, copied: nat)

  datatype Slot = Slot(b: Buffer, flights: map<nat, Flight>, reading: nat)

  datatype Store = Store(books: Books, slots: seq<Slot>)

  datatype Event =
    | New(size: int, file: bool)                  // file: a temporary file can be made
    | OpenWriter(i: nat, id: nat, start: nat, end: int)
    | BeginWrite(i: nat, id: nat, p: Bytes)
    | CopyByte(i: nat, id: nat)
    | EndWrite(i: nat, id: nat)
    | DiskFault(i: nat, id: nat)                  // WriteAt failed part-way
    | Append(i: nat, id: nat, p: Bytes, spill: bool, write: bool, garbage: Bytes)
    | Pin(i: nat)                                 // a streaming read takes its chunk
    | Unpin(i: nat)
    | Complete(i: nat)
    | Fail(i: nat, e: Error)
    | Close(i: nat)

  ghost predicate SlotEnabled(s: Slot, e: Event) {
    match e
    case New(_, _) => false
    case OpenWriter(_, id, start, end) => MayOpen(s.b, id, start, end)
    case BeginWrite(_, id, p) => id in s.b.regions && id !in s.flights && p != [] && !Begin(s.b, id, |p|).Appending?
    case CopyByte(_, id) => id in s.flights && s.flights[id].copied < |s.flights[id].bytes|
    case EndWrite(_, id) => id in s.flights && s.flights[id].copied == |s.flights[id].bytes|
    case DiskFault(_, id) => id in s.flights && !s.flights[id].ram
    case Append(_, id, p, _, _, _) => id in s.b.regions && p != [] && Begin(s.b, id, |p|).Appending?
    case Pin(_) => !s.b.closed && !s.b.onDisk && s.b.size >= 0
    case Unpin(_) => s.reading > 0
    case Complete(_) => true
    case Fail(_, _) => true
    case Close(_) => true
  }

  ghost function SlotStep(s: Slot, k: Books, e: Event): (Slot, Books)
    requires SlotOk(s) && SlotEnabled(s, e)
  {
    match e
    case New(_, _) => (s, k)
    case OpenWriter(_, id, start, end) => (s.(b := Open(s.b, id, start, end)), k)
    case BeginWrite(_, id, p) =>
      (match Begin(s.b, id, |p|)
       case Copying(offset, ram) =>
         (s.(b := if ram then Pinned(s.b) else s.b, flights := s.flights[id := Flight(p, offset, ram, 0)]), k)
       case _ => (s, k))
    case CopyByte(_, id) =>
      var f := s.flights[id];
      (s.(b := Copied(s.b, f.offset + f.copied, f.bytes[f.copied]), flights := s.flights[id := f.(copied := f.copied + 1)]), k)
    case EndWrite(_, id) =>
      var f := s.flights[id];
      assert f.ram ==> id in RamFlights(s);
      var (b, k', _) := Ended(s.b, k, id, |f.bytes|, f.ram);
      (s.(b := b, flights := s.flights - {id}), k')
    case DiskFault(_, id) => (s.(flights := s.flights - {id}), k)
    case Append(_, id, p, spill, write, garbage) =>
      var (b, k', _) := Appended(s.b, k, id, p, spill, write, garbage);
      (s.(b := b), k')
    case Pin(_) => (s.(b := Pinned(s.b), reading := s.reading + 1), k)
    case Unpin(_) =>
      var (b, k') := Unpinned(s.b, k);
      (s.(b := b, reading := s.reading - 1), k')
    case Complete(_) => (s.(b := Completed(s.b).0), k)
    case Fail(_, e) => (s.(b := Failed(s.b, e)), k)
    case Close(_) =>
      var (b, k') := Closed(s.b, k);
      (s.(b := b), k')
  }

  // ----- The invariant of one slot -------------------------------------------------------

  ghost function RamFlights(s: Slot): set<nat> {
    set id | id in s.flights && s.flights[id].ram
  }

  /** A write in progress: its bytes fit its range, and those copied are in place. */
  ghost predicate FlightOk(b: Buffer, id: nat, f: Flight) {
    && id in b.regions
    && f.bytes != []
    && f.offset == b.regions[id].Next()
    && f.copied <= |f.bytes|
    && b.size >= 0 && f.offset + |f.bytes| <= b.size
    && b.regions[id].end >= f.offset + |f.bytes|
    && f.ram == !b.onDisk
    && (!b.closed ==> InPlace(b.data, f))
  }

  ghost predicate InPlace(data: Bytes, f: Flight) {
    f.copied > 0 && f.copied <= |f.bytes| ==>
      f.offset + f.copied <= |data| && data[f.offset..f.offset + f.copied] == f.bytes[..f.copied]
  }

  ghost predicate RamOk(s: Slot) {
    && s.b.pinned == |RamFlights(s)| + s.reading
    && (s.b.onDisk ==> s.b.pinned == 0 && s.b.reserved == 0)
    && (s.b.size < 0 ==> s.b.pinned == 0)
    && (s.b.closed && s.b.pinned == 0 ==> s.b.reserved == 0)
    && (s.b.size < 0 && !s.b.closed ==> s.b.capacity == s.b.reserved)
  }

  /** Finished bytes exist. */
  ghost predicate Fits(b: Buffer, r: Region) {
    r.written > 0 ==> (b.size >= 0 ==> r.Next() <= b.size) && (!b.closed ==> r.Next() <= |b.data|)
  }

  ghost predicate DataOk(b: Buffer) {
    && (forall id <- b.regions :: Fits(b, b.regions[id]))
    && (b.closed ==> b.err == Some(ErrClosed))
    && (b.complete ==> b.size >= 0 && b.ready == b.size)
    && (!b.closed ==> b.ready <= |b.data|)
    && (b.size >= 0 ==> b.ready <= b.size)
    && (!b.closed && !b.onDisk && b.size >= 0 ==> b.size <= |b.data|)
    && (!b.closed && !b.onDisk && b.size < 0 ==> |b.data| == b.ready && |b.data| <= b.capacity)
  }

  ghost predicate SlotOk(s: Slot) {
    && RegionsOk(s.b)
    && (forall id <- s.flights :: FlightOk(s.b, id, s.flights[id]))
    && RamOk(s)
    && DataOk(s.b)
  }

  // ----- Every step keeps it ------------------------------------------------------------------

  /** What a step may do to a write in progress elsewhere in the buffer. */
  ghost predicate SparesFlight(b: Buffer, b': Buffer, id: nat, f: Flight) {
    && id in b.regions && id in b'.regions && b'.regions[id] == b.regions[id]
    && b'.size == b.size && b'.onDisk == b.onDisk
    && (!b'.closed ==> !b.closed && (InPlace(b.data, f) ==> InPlace(b'.data, f)))
  }

  lemma FlightsSurvive(s: Slot, s': Slot)
    requires forall id <- s.flights :: FlightOk(s.b, id, s.flights[id])
    requires forall id <- s'.flights :: id in s.flights && s'.flights[id] == s.flights[id] && SparesFlight(s.b, s'.b, id, s.flights[id])
    ensures forall id <- s'.flights :: FlightOk(s'.b, id, s'.flights[id])
  {
  }

  /** The books moved by exactly what the buffer's reservation moved, and never past the budget. */
  ghost predicate Balanced(b: Buffer, k: Books, b': Buffer, k': Books) {
    && k'.used - k.used == b'.reserved - b.reserved
    && k'.fileLimit == k.fileLimit && k'.budget == k.budget
    && (k'.used <= k.used || k'.used <= k.budget)
  }

  /** Bytes already ready stay ready and stay the same, unless the buffer is closed. */
  ghost predicate KeepsReady(b: Buffer, b': Buffer) {
    && b.ready <= b'.ready
    && (b.closed ==> b'.closed)
    && (b.complete ==> b'.complete && b'.size == b.size)
    && (b.size >= 0 ==> b'.size == b.size)
    && (!b'.closed && b.ready <= |b.data| ==> b.ready <= |b'.data| && b'.data[..b.ready] == b.data[..b.ready])
  }

  ghost predicate StepOk(s: Slot, k: Books, s': Slot, k': Books) {
    SlotOk(s') && Balanced(s.b, k, s'.b, k') && KeepsReady(s.b, s'.b)
  }

  lemma OpenIsOk(s: Slot, k: Books, id: nat, start: nat, end: int)
    requires SlotOk(s) && MayOpen(s.b, id, start, end)
    ensures StepOk(s, k, s.(b := Open(s.b, id, start, end)), k)
  {
    OpenKeepsRegions(s.b, id, start, end);
    FlightsSurvive(s, s.(b := Open(s.b, id, start, end)));
  }

  lemma BeginMakesFlight(b: Buffer, id: nat, p: Bytes)
    requires RegionsOk(b) && DataOk(b) && id in b.regions && p != [] && Begin(b, id, |p|).Copying?
    ensures Begin(b, id, |p|) == Copying(b.regions[id].Next(), !b.onDisk)
    ensures FlightOk(b, id, Flight(p, b.regions[id].Next(), !b.onDisk, 0))
  {
    if b.regions[id].end < 0 {
      UnboundedIsReady(b, id);
    }
  }

  lemma BeginIsOk(s: Slot, k: Books, id: nat, p: Bytes)
    requires SlotOk(s) && id in s.b.regions && id !in s.flights && p != [] && Begin(s.b, id, |p|).Copying?
    ensures var f := Flight(p, s.b.regions[id].Next(), !s.b.onDisk, 0);
            StepOk(s, k, s.(b := if f.ram then Pinned(s.b) else s.b, flights := s.flights[id := f]), k)
  {
    var f := Flight(p, s.b.regions[id].Next(), !s.b.onDisk, 0);
    var s' := s.(b := if f.ram then Pinned(s.b) else s.b, flights := s.flights[id := f]);
    BeginMakesFlight(s.b, id, p);
    assert RamFlights(s') == if f.ram then RamFlights(s) + {id} else RamFlights(s);
    assert RamOk(s');
    assert RegionsOk(s'.b);
    forall g <- s'.flights ensures FlightOk(s'.b, g, s'.flights[g]) {
      assert g != id ==> FlightOk(s.b, g, s.flights[g]);
    }
  }

  /** A byte copied by a writer lies past the ready prefix. */
  lemma CopyIsAhead(b: Buffer, id: nat, f: Flight)
    requires RegionsOk(b) && DataOk(b) && FlightOk(b, id, f) && f.copied < |f.bytes|
    ensures var c := Copied(b, f.offset + f.copied, f.bytes[f.copied]);
            RegionsOk(c) && DataOk(c) && KeepsReady(b, c)
  {
    var at := f.offset + f.copied;
    UnwrittenIsAhead(b, id, at);
    if !b.closed {
      OverwriteSpares(b.data, at, [f.bytes[f.copied]], 0, b.ready);
      assert Copied(b, at, f.bytes[f.copied]).data[..b.ready] == Copied(b, at, f.bytes[f.copied]).data[0..b.ready];
      assert b.data[..b.ready] == b.data[0..b.ready];
    }
  }

  lemma CopyKeepsFlights(s: Slot, id: nat)
    requires RegionsOk(s.b) && id in s.flights && s.flights[id].copied < |s.flights[id].bytes|
    requires forall g <- s.flights :: FlightOk(s.b, g, s.flights[g])
    ensures var f := s.flights[id];
            forall g <- s.flights ::
              FlightOk(Copied(s.b, f.offset + f.copied, f.bytes[f.copied]), g, if g == id then f.(copied := f.copied + 1) else s.flights[g])
  {
    var f := s.flights[id];
    CopyExtendsFlight(s.b, id, f);
    forall g <- s.flights | g != id ensures FlightOk(Copied(s.b, f.offset + f.copied, f.bytes[f.copied]), g, s.flights[g]) {
      CopySparesFlight(s.b, id, f, g, s.flights[g]);
    }
  }

  lemma CopyIsOk(s: Slot, k: Books, id: nat, s': Slot, k': Books)
    requires SlotOk(s) && id in s.flights && s.flights[id].copied < |s.flights[id].bytes|
    requires var f := s.flights[id];
             s' == s.(b := Copied(s.b, f.offset + f.copied, f.bytes[f.copied]), flights := s.flights[id := f.(copied := f.copied + 1)])
    requires k' == k
    ensures StepOk(s, k, s', k')
  {
    CopyIsAhead(s.b, id, s.flights[id]);
    CopyKeepsFlights(s, id);
    assert RamFlights(s') == RamFlights(s);
  }

  lemma CopyExtendsFlight(b: Buffer, id: nat, f: Flight)
    requires FlightOk(b, id, f) && f.copied < |f.bytes|
    ensures FlightOk(Copied(b, f.offset + f.copied, f.bytes[f.copied]), id, f.(copied := f.copied + 1))
  {
    if !b.closed {
      OverwriteExtends(b.data, f.offset, f.bytes, f.copied);
    }
  }

  lemma CopySparesFlight(b: Buffer, id: nat, f: Flight, g: nat, h: Flight)
    requires RegionsOk(b) && FlightOk(b, id, f) && FlightOk(b, g, h) && id != g
    requires f.copied < |f.bytes|
    ensures FlightOk(Copied(b, f.offset + f.copied, f.bytes[f.copied]), g, h)
  {
    assert Listed(b.order, b.regions, id) && Listed(b.order, b.regions, g);
    RangesAreDisjoint(b, id, g);
    if !b.closed && h.copied > 0 {
      OverwriteSpares(b.data, f.offset + f.copied, [f.bytes[f.copied]], h.offset, h.offset + h.copied);
    }
  }

  lemma LeavingDropsPin(s: Slot, id: nat)
    requires RamOk(s) && id in s.flights
    ensures var t := s.(flights := s.flights - {id});
            if s.flights[id].ram then s.b.pinned > 0 && s.b.pinned - 1 == |RamFlights(t)| + t.reading
            else s.b.pinned == |RamFlights(t)| + t.reading
  {
    var t := s.(flights := s.flights - {id});
    if s.flights[id].ram {
      assert id in RamFlights(s);
      assert RamFlights(t) == RamFlights(s) - {id};
    } else {
      assert RamFlights(t) == RamFlights(s);
    }
  }

  /** A write leaves: its pin goes, and with the last pin a closed buffer's RAM. */
  lemma LeaveIsOk(s: Slot, k: Books, id: nat)
    requires SlotOk(s) && id in s.flights
    ensures s.flights[id].ram ==> s.b.pinned > 0
    ensures var (c, k') := if s.flights[id].ram then Unpinned(s.b, k) else (s.b, k);
            StepOk(s, k, Slot(c, s.flights - {id}, s.reading), k')
  {
    LeavingDropsPin(s, id);
    var (c, k') := if s.flights[id].ram then Unpinned(s.b, k) else (s.b, k);
    FlightsSurvive(s, Slot(c, s.flights - {id}, s.reading));
  }

  /** With every finished byte in place, so is the ready prefix. */
  lemma ReadyFits(b: Buffer)
    requires RegionsOk(b) && forall id <- b.regions :: Fits(b, b.regions[id])
    ensures b.size >= 0 ==> b.ready <= b.size
    ensures !b.closed ==> b.ready <= |b.data|
  {
    ScanIsLongestPrefix(b.order, b.regions);
    if b.ready > 0 {
      assert Covered(b.order, b.regions, b.ready - 1);
      var id :| id in b.order && id in b.regions && b.regions[id].start <= b.ready - 1 < b.regions[id].Next();
      assert Fits(b, b.regions[id]);
    }
  }

  lemma GrowFits(b: Buffer, id: nat, n: nat)
    requires RegionsOk(b) && DataOk(b) && id in b.regions && b.size >= 0
    requires b.regions[id].Next() + n <= b.regions[id].end && b.regions[id].Next() + n <= b.size
    requires !b.closed ==> b.regions[id].Next() + n <= |b.data|
    ensures RegionsOk(Grown(b, id, n)) && DataOk(Grown(b, id, n)) && KeepsReady(b, Grown(b, id, n))
  {
    GrowKeepsRegions(b, id, n);
    ReadyFits(Grown(b, id, n));
  }

  lemma EndIsOk(s: Slot, k: Books, id: nat)
    requires SlotOk(s) && id in s.flights && s.flights[id].copied == |s.flights[id].bytes|
    ensures var f := s.flights[id];
            && (f.ram ==> s.b.pinned > 0)
            && var (b, k', _) := Ended(s.b, k, id, |f.bytes|, f.ram);
               StepOk(s, k, s.(b := b, flights := s.flights - {id}), k')
  {
    var f := s.flights[id];
    LeaveIsOk(s, k, id);
    var (c, k') := if f.ram then Unpinned(s.b, k) else (s.b, k);
    if c.err.None? {
      GrowFits(c, id, |f.bytes|);
      var t := Slot(c, s.flights - {id}, s.reading);
      FlightsSurvive(t, t.(b := Grown(c, id, |f.bytes|)));
      GrowIsOk(t, k', id, |f.bytes|);
    }
  }

  lemma GrowIsOk(s: Slot, k: Books, id: nat, n: nat)
    requires SlotOk(s) && id in s.b.regions
    requires RegionsOk(Grown(s.b, id, n)) && DataOk(Grown(s.b, id, n)) && KeepsReady(s.b, Grown(s.b, id, n))
    requires forall g <- s.flights :: FlightOk(Grown(s.b, id, n), g, s.flights[g])
    ensures StepOk(s, k, s.(b := Grown(s.b, id, n)), k)
  {
  }

  // ----- Growing buffers ------------------------------------------------------------------------

  lemma RoomIsBalanced(b: Buffer, k: Books, length: nat, spill: bool)
    requires b.size < 0 && b.capacity == b.reserved && !b.closed
    requires !b.onDisk ==> |b.data| <= b.capacity && |b.data| <= length
    requires b.onDisk ==> b.reserved == 0
    ensures var (c, k', e) := MadeRoom(b, k, length, spill);
            && Balanced(b, k, c, k')
            && c == b.(onDisk := c.onDisk, capacity := c.capacity, reserved := c.reserved, err := c.err)
            && c.capacity == c.reserved
            && (c.onDisk ==> c.reserved == 0)
            && (b.onDisk ==> c.onDisk)
            && (!c.onDisk ==> |b.data| <= c.capacity && (e == None ==> length <= c.capacity))
            && (e == None ==> c.err == b.err)
            && (e.Some? ==> c == b.(err := Some(ErrDisk)) && k' == k)
  {
  }

  /** The bytes `d` extend `b`'s, and its one writer finished them. */
  lemma AppendGrows(b: Buffer, d: Buffer, id: nat, n: nat)
    requires RegionsOk(b) && DataOk(b) && b.size < 0 && !b.closed && id in b.regions
    requires d == b.(data := d.data, onDisk := d.onDisk, capacity := d.capacity, reserved := d.reserved)
    requires b.ready + n <= |d.data| && d.data[..b.ready] == b.data[..b.ready]
    requires !d.onDisk ==> |d.data| == b.ready + n && |d.data| <= d.capacity
    ensures RegionsOk(Grown(d, id, n)) && DataOk(Grown(d, id, n)) && KeepsReady(b, Grown(d, id, n))
  {
    UnboundedIsReady(b, id);
    GrowKeepsRegions(d, id, n);
    UnboundedIsReady(Grown(d, id, n), id);
    forall j <- b.regions ensures j == id {
      assert Listed(b.order, b.regions, j);
    }
  }

  lemma FailedAppendIsOk(b: Buffer, d: Buffer, id: nat)
    requires RegionsOk(b) && DataOk(b) && b.size < 0 && !b.closed && id in b.regions
    requires d == b.(data := d.data, onDisk := true, capacity := 0, reserved := 0)
    requires b.ready <= |d.data| && d.data[..b.ready] == b.data[..b.ready]
    ensures RegionsOk(d) && DataOk(d) && KeepsReady(b, d)
  {
    UnboundedIsReady(b, id);
    forall j <- b.regions ensures j == id {
      assert Listed(b.order, b.regions, j);
    }
  }

  lemma OverwriteKeepsPrefix(data: Bytes, at: nat, p: Bytes)
    requires at <= |data|
    ensures Overwrite(data, at, p)[..at] == data[..at]
  {
  }

  lemma StoredIsOk(b: Buffer, c: Buffer, id: nat, p: Bytes, write: bool, garbage: Bytes)
    requires RegionsOk(b) && DataOk(b) && id in b.regions && b.size < 0 && !b.closed
    requires c == b.(onDisk := c.onDisk, capacity := c.capacity, reserved := c.reserved)
    requires c.capacity == c.reserved && (c.onDisk ==> c.reserved == 0)
    requires !c.onDisk ==> !b.onDisk && b.regions[id].written + |p| <= c.capacity
    ensures var d := Stored(c, id, p, write, garbage).0;
            && RegionsOk(d) && DataOk(d) && KeepsReady(b, d)
            && d == c.(data := d.data, regions := d.regions, ready := d.ready)
  {
    UnboundedIsReady(b, id);
    var at := b.regions[id].written;
    OverwriteKeepsPrefix(b.data, at, p);
    OverwriteKeepsPrefix(b.data, at, garbage);
    if !c.onDisk {
      AppendGrows(b, c.(data := c.data + p), id, |p|);
    } else if write {
      AppendGrows(b, c.(data := Overwrite(c.data, at, p)), id, |p|);
    } else {
      FailedAppendIsOk(b, c.(data := Overwrite(c.data, at, garbage)), id);
    }
  }

  lemma ErrorIsOk(b: Buffer, e: Error)
    requires RegionsOk(b) && DataOk(b) && !b.closed
    ensures RegionsOk(b.(err := Some(e))) && DataOk(b.(err := Some(e))) && KeepsReady(b, b.(err := Some(e)))
  {
  }

  /** The outcome of an append: a sound growing buffer whose RAM is all accounted for. */
  ghost predicate AppendOk(b: Buffer, k: Books, d: Buffer, k': Books) {
    && RegionsOk(d) && DataOk(d) && KeepsReady(b, d) && Balanced(b, k, d, k')
    && !d.closed && d.size < 0 && d.pinned == b.pinned
    && d.capacity == d.reserved && (d.onDisk ==> d.reserved == 0)
  }

  lemma StoredKeepsBuffer(b: Buffer, k: Books, c: Buffer, k': Books, id: nat, p: Bytes, write: bool, garbage: Bytes, d: Buffer)
    requires RegionsOk(b) && DataOk(b) && id in b.regions && b.size < 0 && !b.closed
    requires c == b.(onDisk := c.onDisk, capacity := c.capacity, reserved := c.reserved)
    requires c.capacity == c.reserved && (c.onDisk ==> c.reserved == 0)
    requires !c.onDisk ==> !b.onDisk && b.regions[id].written + |p| <= c.capacity
    requires Balanced(b, k, c, k') && d == Stored(c, id, p, write, garbage).0
    ensures AppendOk(b, k, d, k')
  {
    StoredIsOk(b, c, id, p, write, garbage);
  }

  lemma NoRoomKeepsBuffer(b: Buffer, k: Books)
    requires RegionsOk(b) && DataOk(b) && b.size < 0 && !b.closed
    requires b.capacity == b.reserved && (b.onDisk ==> b.reserved == 0)
    ensures AppendOk(b, k, b.(err := Some(ErrDisk)), k)
  {
    ErrorIsOk(b, ErrDisk);
  }

  lemma AppendWithRoom(b: Buffer, k: Books, id: nat, p: Bytes, spill: bool, write: bool, garbage: Bytes, c: Buffer, k': Books, d: Buffer)
    requires RegionsOk(b) && DataOk(b) && id in b.regions && Begin(b, id, |p|).Appending?
    requires b.capacity == b.reserved && (b.onDisk ==> b.reserved == 0)
    requires (c, k', None) == MadeRoom(b, k, b.regions[id].written + |p|, spill)
    requires d == Stored(c, id, p, write, garbage).0
    ensures AppendOk(b, k, d, k')
  {
    UnboundedIsReady(b, id);
    RoomIsBalanced(b, k, b.regions[id].written + |p|, spill);
    StoredKeepsBuffer(b, k, c, k', id, p, write, garbage, d);
  }

  lemma AppendWithoutRoom(b: Buffer, k: Books, id: nat, p: Bytes, spill: bool, d: Buffer, k': Books, e: Option<Error>)
    requires RegionsOk(b) && DataOk(b) && id in b.regions && Begin(b, id, |p|).Appending?
    requires b.capacity == b.reserved && (b.onDisk ==> b.reserved == 0)
    requires (d, k', e) == MadeRoom(b, k, b.regions[id].written + |p|, spill) && e.Some?
    ensures AppendOk(b, k, d, k')
  {
    UnboundedIsReady(b, id);
    RoomIsBalanced(b, k, b.regions[id].written + |p|, spill);
    NoRoomKeepsBuffer(b, k);
  }

  lemma AppendSplits(b: Buffer, k: Books, id: nat, p: Bytes, spill: bool, write: bool, garbage: Bytes, d: Buffer, k': Books, e: Option<Error>)
    requires id in b.regions && forall k :: 0 <= k < |b.order| ==> b.order[k] in b.regions
    requires (d, k', e) == Appended(b, k, id, p, spill, write, garbage)
    ensures var (c, l, f) := MadeRoom(b, k, b.regions[id].written + |p|, spill);
            if f.Some? then (d, k') == (c, l) else (d, k') == (Stored(c, id, p, write, garbage).0, l)
  {
  }

  lemma AppendKeepsBuffer(b: Buffer, k: Books, id: nat, p: Bytes, spill: bool, write: bool, garbage: Bytes, d: Buffer, k': Books, e: Option<Error>)
    requires RegionsOk(b) && DataOk(b) && id in b.regions && Begin(b, id, |p|).Appending?
    requires b.capacity == b.reserved && (b.onDisk ==> b.reserved == 0)
    requires (d, k', e) == Appended(b, k, id, p, spill, write, garbage)
    ensures AppendOk(b, k, d, k')
  {
    AppendSplits(b, k, id, p, spill, write, garbage, d, k', e);
    var (c, l, f) := MadeRoom(b, k, b.regions[id].written + |p|, spill);
    if f == None {
      AppendWithRoom(b, k, id, p, spill, write, garbage, c, l, d);
    } else {
      AppendWithoutRoom(b, k, id, p, spill, c, l, f);
    }
  }

  lemma AppendIsOk(s: Slot, k: Books, id: nat, p: Bytes, spill: bool, write: bool, garbage: Bytes, d: Buffer, k': Books, e: Option<Error>)
    requires SlotOk(s) && id in s.b.regions && Begin(s.b, id, |p|).Appending?
    requires (d, k', e) == Appended(s.b, k, id, p, spill, write, garbage)
    ensures StepOk(s, k, s.(b := d), k')
  {
    AppendKeepsBuffer(s.b, k, id, p, spill, write, garbage, d, k', e);
  }

  // ----- The other steps --------------------------------------------------------------------------

  lemma PinIsOk(s: Slot, k: Books)
    requires SlotOk(s) && !s.b.closed && !s.b.onDisk && s.b.size >= 0
    ensures StepOk(s, k, s.(b := Pinned(s.b), reading := s.reading + 1), k)
  {
    var s' := s.(b := Pinned(s.b), reading := s.reading + 1);
    assert RamFlights(s') == RamFlights(s);
    FlightsSurvive(s, s');
  }

  lemma UnpinIsOk(s: Slot, k: Books)
    requires SlotOk(s) && s.reading > 0
    ensures s.b.pinned > 0
    ensures StepOk(s, k, s.(b := Unpinned(s.b, k).0, reading := s.reading - 1), Unpinned(s.b, k).1)
  {
    var s' := s.(b := Unpinned(s.b, k).0, reading := s.reading - 1);
    assert RamFlights(s') == RamFlights(s);
    FlightsSurvive(s, s');
  }

  lemma CompleteIsOk(s: Slot, k: Books, c: Buffer)
    requires SlotOk(s) && c == Completed(s.b).0
    ensures StepOk(s, k, s.(b := c), k)
  {
    if s.b.err == None {
      assert !s.b.closed;
      if s.b.size < 0 {
        CompleteGrowing(s, k, c);
      } else {
        FlightsSurvive(s, s.(b := c));
      }
    }
  }

  lemma CompleteGrowing(s: Slot, k: Books, c: Buffer)
    requires SlotOk(s) && s.b.size < 0 && s.b.err == None && c == s.b.(size := s.b.ready, complete := true)
    ensures StepOk(s, k, s.(b := c), k)
  {
    assert s.flights == map[];
    forall id <- c.regions ensures Fits(c, c.regions[id]) {
      UnboundedIsReady(s.b, id);
    }
  }

  lemma FailIsOk(s: Slot, k: Books, e: Error)
    requires SlotOk(s)
    ensures StepOk(s, k, s.(b := Failed(s.b, e)), k)
  {
    FlightsSurvive(s, s.(b := Failed(s.b, e)));
  }

  lemma CloseIsOk(s: Slot, k: Books)
    requires SlotOk(s)
    ensures StepOk(s, k, s.(b := Closed(s.b, k).0), Closed(s.b, k).1)
  {
    FlightsSurvive(s, s.(b := Closed(s.b, k).0));
  }

  lemma OpeningIsOk(s: Slot, k: Books, e: Event, s': Slot, k': Books)
    requires SlotOk(s) && e.OpenWriter? && SlotEnabled(s, e) && (s', k') == SlotStep(s, k, e)
    ensures StepOk(s, k, s', k')
  {
    OpenIsOk(s, k, e.id, e.start, e.end);
  }

  /** A copy step does this and nothing else. */
  lemma CopyingDoes(s: Slot, k: Books, e: Event)
    requires SlotOk(s) && e.CopyByte? && SlotEnabled(s, e)
    ensures var f := s.flights[e.id];
            SlotStep(s, k, e) == (s.(b := Copied(s.b, f.offset + f.copied, f.bytes[f.copied]), flights := s.flights[e.id := f.(copied := f.copied + 1)]), k)
  {
  }

  lemma CopyingIsOk(s: Slot, k: Books, e: Event, s': Slot, k': Books)
    requires SlotOk(s) && e.CopyByte? && SlotEnabled(s, e) && (s', k') == SlotStep(s, k, e)
    ensures StepOk(s, k, s', k')
  {
    CopyingDoes(s, k, e);
    CopyIsOk(s, k, e.id, s', k');
  }

  lemma BeginningIsOk(s: Slot, k: Books, e: Event, s': Slot, k': Books)
    requires SlotOk(s) && e.BeginWrite? && SlotEnabled(s, e) && (s', k') == SlotStep(s, k, e)
    ensures StepOk(s, k, s', k')
  {
    var b := Begin(s.b, e.id, |e.p|);
    if b.Copying? {
      BeginMakesFlight(s.b, e.id, e.p);
      assert s' == s.(b := if b.ram then Pinned(s.b) else s.b, flights := s.flights[e.id := Flight(e.p, b.offset, b.ram, 0)]);
      BeginIsOk(s, k, e.id, e.p);
    } else {
      assert s' == s;
    }
  }

  lemma LeavingIsOk(s: Slot, k: Books, e: Event, s': Slot, k': Books)
    requires SlotOk(s) && (e.EndWrite? || e.DiskFault?) && SlotEnabled(s, e) && (s', k') == SlotStep(s, k, e)
    ensures StepOk(s, k, s', k')
  {
    match e
    case EndWrite(_, id) => EndIsOk(s, k, id);
    case DiskFault(_, id) => LeaveIsOk(s, k, id);
  }

  lemma AppendingIsOk(s: Slot, k: Books, e: Event, s': Slot, k': Books)
    requires SlotOk(s) && (e.Append?) && SlotEnabled(s, e) && (s', k') == SlotStep(s, k, e)
    ensures StepOk(s, k, s', k')
  {
    match e
    case Append(_, id, p, spill, write, garbage) =>
      var (d, l, f) := Appended(s.b, k, id, p, spill, write, garbage);
      AppendIsOk(s, k, id, p, spill, write, garbage, d, l, f);
  }

  lemma PinningIsOk(s: Slot, k: Books, e: Event, s': Slot, k': Books)
    requires SlotOk(s) && (e.Pin? || e.Unpin?) && SlotEnabled(s, e) && (s', k') == SlotStep(s, k, e)
    ensures StepOk(s, k, s', k')
  {
    match e
    case Pin(_) => PinIsOk(s, k);
    case Unpin(_) => UnpinIsOk(s, k);
  }

  lemma EndingIsOk(s: Slot, k: Books, e: Event, s': Slot, k': Books)
    requires SlotOk(s) && (e.Complete? || e.Fail? || e.Close?) && SlotEnabled(s, e) && (s', k') == SlotStep(s, k, e)
    ensures StepOk(s, k, s', k')
  {
    match e
    case Complete(_) => CompleteIsOk(s, k, Completed(s.b).0);
    case Fail(_, x) => FailIsOk(s, k, x);
    case Close(_) => CloseIsOk(s, k);
  }

  lemma StepIsOk(s: Slot, k: Books, e: Event, s': Slot, k': Books)
    requires SlotOk(s) && SlotEnabled(s, e) && (s', k') == SlotStep(s, k, e)
    ensures StepOk(s, k, s', k')
  {
    if e.OpenWriter? {
      OpeningIsOk(s, k, e, s', k');
    } else if e.CopyByte? {
      CopyingIsOk(s, k, e, s', k');
    } else if e.BeginWrite? {
      BeginningIsOk(s, k, e, s', k');
    } else if e.EndWrite? || e.DiskFault? {
      LeavingIsOk(s, k, e, s', k');
    } else if e.Append? {
      AppendingIsOk(s, k, e, s', k');
    } else if e.Pin? || e.Unpin? {
      PinningIsOk(s, k, e, s', k');
    } else {
      EndingIsOk(s, k, e, s', k');
    }
  }
}
