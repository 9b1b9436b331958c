/**
 What the bytes in a buffer are: if every write hands over bytes of one file at
 the place where they belong, every finished byte is that file's.
 */
module SpoolContents {
  import opened Common
  import opened Spool
  import opened SpoolRuns

  /** `p` is what file `v` holds at `at`. */
  ghost predicate Belongs(v: Bytes, at: nat, p: Bytes) {
    at + |p| <= |v| && v[at..at + |p|] == p
  }

  ghost predicate DataFaithful(b: Buffer, v: Bytes) {
    !b.closed ==> forall i: nat {:trigger Covered(b.order, b.regions, i)} :: Covered(b.order, b.regions, i) ==>
      i < |v| && i < |b.data| && b.data[i] == v[i]
  }

  ghost predicate Faithful(s: Slot, v: Bytes) {
    DataFaithful(s.b, v) && forall id <- s.flights :: Belongs(v, s.flights[id].offset, s.flights[id].bytes)
  }

  /** The bytes a write event hands over belong where its writer stands. */
  ghost predicate FaithfulEvent(s: Slot, e: Event, v: Bytes) {
    (e.BeginWrite? || e.Append?) && e.id in s.b.regions && !Begin(s.b, e.id, |e.p|).Refused? ==>
      Belongs(v, s.b.regions[e.id].Next(), e.p)
  }

  lemma OpenCoversNothing(b: Buffer, id: nat, start: nat, end: int, v: Bytes)
    requires RegionsOk(b) && MayOpen(b, id, start, end) && DataFaithful(b, v)
    ensures DataFaithful(Open(b, id, start, end), v)
  {
    var c := Open(b, id, start, end);
    forall i: nat | Covered(c.order, c.regions, i) ensures Covered(b.order, b.regions, i) {
      var j :| j in c.order && j in c.regions && c.regions[j].start <= i < c.regions[j].Next();
      assert j in b.order && j in b.regions;
    }
  }

  lemma CopyIsFaithful(b: Buffer, id: nat, f: Flight, v: Bytes)
    requires RegionsOk(b) && DataOk(b) && FlightOk(b, id, f) && f.copied < |f.bytes| && DataFaithful(b, v)
    ensures DataFaithful(Copied(b, f.offset + f.copied, f.bytes[f.copied]), v)
  {
    UnwrittenIsAhead(b, id, f.offset + f.copied);
  }

  /** Writer `id` finished the bytes `p`, which stand at its place in the data. */
  lemma GrowIsFaithful(b: Buffer, d: Buffer, id: nat, p: Bytes, v: Bytes)
    requires id in b.regions && (forall k :: 0 <= k < |b.order| ==> b.order[k] in b.regions)
    requires DataFaithful(b, v) && !b.closed && !d.closed && d.order == b.order && d.regions == b.regions
    requires var at := b.regions[id].Next();
             && Belongs(v, at, p)
             && at + |p| <= |d.data| && d.data[at..at + |p|] == p
             && forall i: nat :: Covered(b.order, b.regions, i) ==> i < |b.data| && i < |d.data| && d.data[i] == b.data[i]
    ensures DataFaithful(Grown(d, id, |p|), v)
  {
    var at := b.regions[id].Next();
    var c := Grown(d, id, |p|);
    forall i: nat | Covered(c.order, c.regions, i)
      ensures i < |v| && i < |c.data| && c.data[i] == v[i]
    {
      var j :| j in c.order && j in c.regions && c.regions[j].start <= i < c.regions[j].Next();
      if j == id && at <= i {
        assert d.data[at..at + |p|][i - at] == v[at..at + |p|][i - at];
      } else {
        assert b.regions[j].start <= i < b.regions[j].Next();
        assert Covered(b.order, b.regions, i);
      }
    }
  }

  lemma EndIsFaithful(s: Slot, k: Books, id: nat, v: Bytes)
    requires SlotOk(s) && Faithful(s, v) && id in s.flights && s.flights[id].copied == |s.flights[id].bytes|
    requires s.flights[id].ram ==> s.b.pinned > 0
    ensures DataFaithful(Ended(s.b, k, id, |s.flights[id].bytes|, s.flights[id].ram).0, v)
  {
    var f := s.flights[id];
    assert FlightOk(s.b, id, f);
    var c := if f.ram then Unpinned(s.b, k).0 else s.b;
    if c.err == None {
      assert s.b.data[f.offset..f.offset + |f.bytes|] == f.bytes[..|f.bytes|] == f.bytes;
      GrowIsFaithful(s.b, c, id, f.bytes, v);
    }
  }

  lemma StoredIsFaithful(b: Buffer, c: Buffer, id: nat, p: Bytes, write: bool, garbage: Bytes, v: Bytes)
    requires RegionsOk(b) && DataOk(b) && DataFaithful(b, v) && id in b.regions && b.size < 0 && !b.closed
    requires c == b.(onDisk := c.onDisk, capacity := c.capacity, reserved := c.reserved)
    requires !c.onDisk ==> !b.onDisk
    requires Belongs(v, b.regions[id].Next(), p)
    ensures DataFaithful(Stored(c, id, p, write, garbage).0, v)
  {
    UnboundedIsReady(b, id);
    var at := b.regions[id].written;
    ScanIsLongestPrefix(b.order, b.regions);
    forall i: nat | Covered(b.order, b.regions, i) ensures i < at {
      var j :| j in b.order && j in b.regions && b.regions[j].start <= i < b.regions[j].Next();
      assert j == id;
    }
    if !c.onDisk {
      GrowIsFaithful(b, c.(data := c.data + p), id, p, v);
    } else if write {
      GrowIsFaithful(b, c.(data := Overwrite(c.data, at, p)), id, p, v);
    }
  }

  lemma RoomKeepsContents(b: Buffer, k: Books, length: nat, spill: bool, c: Buffer, l: Books, f: Option<Error>)
    requires (c, l, f) == MadeRoom(b, k, length, spill)
    ensures f == None ==> c == b.(onDisk := c.onDisk, capacity := c.capacity, reserved := c.reserved) && (!c.onDisk ==> !b.onDisk)
    ensures f.Some? ==> c == b.(err := Some(ErrDisk))
  {
  }

  lemma ErrorIsFaithful(b: Buffer, v: Bytes, e: Option<Error>)
    requires DataFaithful(b, v)
    ensures DataFaithful(b.(err := e), v)
  {
  }

  lemma AppendIsFaithful(b: Buffer, k: Books, id: nat, p: Bytes, spill: bool, write: bool, garbage: Bytes, v: Bytes, d: Buffer, k': Books, e: Option<Error>)
    requires RegionsOk(b) && DataOk(b) && DataFaithful(b, v) && id in b.regions && Begin(b, id, |p|).Appending?
    requires (d, k', e) == Appended(b, k, id, p, spill, write, garbage)
    requires Belongs(v, b.regions[id].Next(), p)
    ensures DataFaithful(d, v)
  {
    AppendSplits(b, k, id, p, spill, write, garbage, d, k', e);
    var (c, l, f) := MadeRoom(b, k, b.regions[id].written + |p|, spill);
    RoomKeepsContents(b, k, b.regions[id].written + |p|, spill, c, l, f);
    if f == None {
      assert b.size < 0 && !b.closed;
      StoredIsFaithful(b, c, id, p, write, garbage, v);
    } else {
      ErrorIsFaithful(b, v, Some(ErrDisk));
    }
  }

  lemma WriteStepIsFaithful(s: Slot, k: Books, e: Event, s': Slot, k': Books, v: Bytes)
    requires SlotOk(s) && Faithful(s, v) && FaithfulEvent(s, e, v)
    requires (e.OpenWriter? || e.BeginWrite? || e.CopyByte?) && SlotEnabled(s, e) && (s', k') == SlotStep(s, k, e)
    ensures Faithful(s', v)
  {
    match e
    case OpenWriter(_, id, start, end) => OpenCoversNothing(s.b, id, start, end, v);
    case BeginWrite(_, id, p) =>
    case CopyByte(_, id) => CopyIsFaithful(s.b, id, s.flights[id], v);
  }

  lemma OtherStepIsFaithful(s: Slot, k: Books, e: Event, s': Slot, k': Books, v: Bytes)
    requires SlotOk(s) && Faithful(s, v) && FaithfulEvent(s, e, v)
    requires !(e.OpenWriter? || e.BeginWrite? || e.CopyByte?) && SlotEnabled(s, e) && (s', k') == SlotStep(s, k, e)
    ensures Faithful(s', v)
  {
    match e
    case EndWrite(_, id) =>
      LeaveIsOk(s, k, id);
      EndIsFaithful(s, k, id, v);
    case Append(_, id, p, spill, write, garbage) =>
      var (d, l, f) := Appended(s.b, k, id, p, spill, write, garbage);
      AppendIsFaithful(s.b, k, id, p, spill, write, garbage, v, d, l, f);
    case _ =>
  }

  lemma StepIsFaithful(s: Slot, k: Books, e: Event, s': Slot, k': Books, v: Bytes)
    requires SlotOk(s) && Faithful(s, v) && FaithfulEvent(s, e, v)
    requires SlotEnabled(s, e) && (s', k') == SlotStep(s, k, e)
    ensures SlotOk(s') && Faithful(s', v)
  {
    StepIsOk(s, k, e, s', k');
    if e.OpenWriter? || e.BeginWrite? || e.CopyByte? {
      WriteStepIsFaithful(s, k, e, s', k', v);
    } else {
      OtherStepIsFaithful(s, k, e, s', k', v);
    }
  }

  /** A buffer that completes at the file's length holds the file. */
  lemma CompleteIsWholeFile(s: Slot, v: Bytes)
    requires SlotOk(s) && Faithful(s, v) && Completed(s.b).1 == None && Completed(s.b).0.size == |v|
    ensures |v| <= |s.b.data| && s.b.data[..|v|] == v
  {
    ScanIsLongestPrefix(s.b.order, s.b.regions);
    forall i: nat | i < |v| ensures i < |s.b.data| && s.b.data[i] == v[i] {
      assert Covered(s.b.order, s.b.regions, i);
    }
  }
}
