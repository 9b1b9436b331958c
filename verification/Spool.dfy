/**
 One media buffer: what each of its locked sections does, and what they keep.

 `Write` drops the lock around the copy, so a write is a begin step, one step per
 byte copied, and an end step; anything may happen in between. A buffer's bytes
 are `data`, in RAM or in its temporary file. Writers are named by number.
 */
module Spool {
  import opened Common

  type Bytes = seq<Byte>

  datatype Error = ErrClosed | ErrIncomplete | ErrOverflow | ErrUnexpectedEOF | ErrEOF | ErrDisk | ErrFailed | ErrNegativeOffset

  /** A writer's range; a negative end has no bound. */
  datatype Region = Region(start: nat, end: int, written: nat) {
    function Next(): nat { start + written }
  }

  datatype Buffer = Buffer(
    size: int,
    data: Bytes,
    onDisk: bool,
    capacity: nat,
    reserved: nat,
    pinned: nat,
    order: seq<nat>,
    regions: map<nat, Region>,
    ready: nat,
    err: Option<Error>,
    complete: bool,
    closed: bool)

  const MinGrowth := 65536

  // ----- Regions and the ready prefix -----------------------------------------------

  /** Byte `i` lies in a finished write. */
  ghost predicate Covered(order: seq<nat>, rs: map<nat, Region>, i: int) {
    exists id :: id in order && id in rs && rs[id].start <= i < rs[id].Next()
  }

  /** `n` is the length of the longest prefix of finished writes. */
  ghost predicate LongestPrefix(order: seq<nat>, rs: map<nat, Region>, n: nat) {
    (forall i :: 0 <= i < n ==> Covered(order, rs, i)) && !Covered(order, rs, n)
  }

  ghost predicate Empty(r: Region) {
    r.end == r.start
  }

  /** A range ends before another begins, or one of them is empty. */
  ghost predicate Before(r: Region, s: Region) {
    r.start <= s.start && (Empty(r) || Empty(s) || r.end <= s.start)
  }

  /** Regions in order of start, no byte in two of them. */
  ghost predicate Separate(order: seq<nat>, rs: map<nat, Region>) {
    && (forall k :: 0 <= k < |order| ==> order[k] in rs)
    && (forall k :: 0 <= k < |order| ==> var r := rs[order[k]]; (r.end < 0 && |order| == 1) || (r.start <= r.end && r.Next() <= r.end))
    && (forall k, l {:trigger Apart(order, rs, k, l)} :: Apart(order, rs, k, l))
  }

  /** The ranges at positions `k` and `l` are two, and in order. */
  ghost predicate Apart(order: seq<nat>, rs: map<nat, Region>, k: int, l: int) {
    0 <= k < l < |order| && order[k] in rs && order[l] in rs ==> order[k] != order[l] && Before(rs[order[k]], rs[order[l]])
  }

  lemma TailIsSeparate(order: seq<nat>, rs: map<nat, Region>)
    requires Separate(order, rs) && order != []
    ensures |order| > 1 ==> Separate(order[1..], rs)
    ensures forall k :: 0 < k < |order| ==> Before(rs[order[0]], rs[order[k]])
  {
    forall k, l ensures Apart(order[1..], rs, k, l) {
      assert Apart(order, rs, k + 1, l + 1);
    }
    forall k | 0 < k < |order| ensures Before(rs[order[0]], rs[order[k]]) {
      assert Apart(order, rs, 0, k);
    }
  }

  /** The scan of `advanceLocked`. */
  function Scan(order: seq<nat>, rs: map<nat, Region>, ready: nat): nat
    requires forall k :: 0 <= k < |order| ==> order[k] in rs
  {
    if order == [] then ready
    else
      var r := rs[order[0]];
      if r.start > ready then ready
      else
        var n := if ready < r.Next() then r.Next() else ready;
        if r.end < 0 || r.Next() < r.end then n else Scan(order[1..], rs, n)
  }

  lemma {:induction false} ScanFinds(order: seq<nat>, rs: map<nat, Region>, ready: nat)
    requires Separate(order, rs)
    requires forall k :: 0 <= k < |order| ==> Empty(rs[order[k]]) || ready <= rs[order[k]].start
    ensures var n := Scan(order, rs, ready);
            && ready <= n
            && (forall i :: ready <= i < n ==> Covered(order, rs, i))
            && !Covered(order, rs, n)
    decreases |order|
  {
    if order != [] {
      TailIsSeparate(order, rs);
      var r := rs[order[0]];
      var n := if ready < r.Next() then r.Next() else ready;
      if r.start <= ready {
        forall i | ready <= i < n ensures Covered(order, rs, i) {
          assert order[0] in order;
        }
        if r.end >= 0 && r.Next() >= r.end {
          if |order| > 1 {
            ScanFinds(order[1..], rs, n);
          }
          var m := Scan(order[1..], rs, n);
          forall i | n <= i < m ensures Covered(order, rs, i) {
            assert Covered(order[1..], rs, i);
          }
          assert forall id :: id in order ==> id == order[0] || id in order[1..];
        }
      }
    }
  }

  /** Over disjoint ranges the scan finds the longest prefix of finished writes. */
  lemma ScanIsLongestPrefix(order: seq<nat>, rs: map<nat, Region>)
    requires Separate(order, rs)
    ensures LongestPrefix(order, rs, Scan(order, rs, 0))
  {
    ScanFinds(order, rs, 0);
  }

  lemma PrefixIsUnique(order: seq<nat>, rs: map<nat, Region>, m: nat, n: nat)
    requires LongestPrefix(order, rs, m) && LongestPrefix(order, rs, n)
    ensures m == n
  {
  }

  /** Where `Writer` puts a new range: before the first range that starts no earlier. */
  function Place(order: seq<nat>, rs: map<nat, Region>, start: nat): (k: nat)
    requires forall k :: 0 <= k < |order| ==> order[k] in rs
    ensures k <= |order|
    ensures forall j :: 0 <= j < k ==> rs[order[j]].start < start
    ensures k < |order| ==> start <= rs[order[k]].start
  {
    if order == [] || rs[order[0]].start >= start then 0 else 1 + Place(order[1..], rs, start)
  }

  lemma {:induction false} PlaceIs(order: seq<nat>, rs: map<nat, Region>, start: nat, k: nat)
    requires forall j :: 0 <= j < |order| ==> order[j] in rs
    requires k <= |order| && (k < |order| ==> start <= rs[order[k]].start)
    requires forall j :: 0 <= j < k ==> rs[order[j]].start < start
    ensures k == Place(order, rs, start)
  {
    if k > 0 {
      PlaceIs(order[1..], rs, start, k - 1);
    }
  }

  /** The ranges are listed by their starts. */
  ghost predicate Sorted(order: seq<nat>, rs: map<nat, Region>)
    requires forall k :: 0 <= k < |order| ==> order[k] in rs
  {
    forall j, k :: 0 <= j < k < |order| ==> rs[order[j]].start <= rs[order[k]].start
  }

  lemma SeparateIsSorted(order: seq<nat>, rs: map<nat, Region>)
    requires Separate(order, rs)
    ensures Sorted(order, rs)
  {
    forall j, k | 0 <= j < k < |order| ensures rs[order[j]].start <= rs[order[k]].start {
      assert Apart(order, rs, j, k);
    }
  }

  /** One more range, overlapping or not, is inserted in order. */
  lemma PlaceKeepsSorted(order: seq<nat>, rs: map<nat, Region>, id: nat, r: Region)
    requires forall k :: 0 <= k < |order| ==> order[k] in rs
    requires Sorted(order, rs) && id !in rs
    ensures var k := Place(order, rs, r.start); Sorted(order[..k] + [id] + order[k..], rs[id := r])
  {
  }

  /** A range the caller may open: disjoint from the others; unbounded only alone on a growing buffer. */
  ghost predicate MayOpen(b: Buffer, id: nat, start: nat, end: int) {
    && id !in b.regions && id !in b.order
    && (b.size < 0 ==> b.order == [] && start == 0 && end < 0)
    && (b.size >= 0 ==> start <= end)
    && forall k :: 0 <= k < |b.order| && b.order[k] in b.regions ==>
         var r := b.regions[b.order[k]];
         r.end >= 0 && (start == end || Empty(r) || end <= r.start || r.end <= start)
  }

  ghost function Open(b: Buffer, id: nat, start: nat, end: int): Buffer
    requires forall k :: 0 <= k < |b.order| ==> b.order[k] in b.regions
  {
    var k := Place(b.order, b.regions, start);
    b.(order := b.order[..k] + [id] + b.order[k..], regions := b.regions[id := Region(start, end, 0)])
  }

  // ----- The shared budget -------------------------------------------------------------

  datatype Books = Books(fileLimit: int, budget: int, used: int)

  function Reserves(k: Books, total: int, delta: int): bool {
    total <= k.fileLimit && k.used + delta <= k.budget
  }

  function Release(k: Books, n: nat): Books {
    k.(used := k.used - n)
  }

  // ----- Writing ---------------------------------------------------------------------

  datatype Begun = Refused(error: Error) | Appending | Copying(offset: nat, ram: bool)

  /** The checks at the head of `Write`, for a non-empty write. */
  function Begin(b: Buffer, id: nat, n: nat): Begun
    requires id in b.regions
  {
    var r := b.regions[id];
    if b.err.Some? then Refused(b.err.value)
    else if (r.end >= 0 && n > r.end - r.Next()) || (b.size >= 0 && r.Next() + n > b.size) then Refused(ErrOverflow)
    else if b.size < 0 then Appending
    else Copying(r.Next(), !b.onDisk)
  }

  function Pinned(b: Buffer): Buffer {
    b.(pinned := b.pinned + 1)
  }

  /** Drops a pin; the last one on a closed buffer gives its RAM back. */
  function Unpinned(b: Buffer, k: Books): (Buffer, Books)
    requires b.pinned > 0
  {
    var c := b.(pinned := b.pinned - 1);
    if c.closed && c.pinned == 0 then (c.(reserved := 0), Release(k, c.reserved)) else (c, k)
  }

  /** `p` written over `data` at `offset`; a gap in a file reads as zeros. */
  function Overwrite(data: Bytes, offset: nat, p: Bytes): (d: Bytes)
    ensures |d| == if |data| < offset + |p| then offset + |p| else |data|
    ensures forall i :: 0 <= i < |d| ==> d[i] == if offset <= i < offset + |p| then p[i - offset] else if i < |data| then data[i] else 0
  {
    seq(if |data| < offset + |p| then offset + |p| else |data|,
        i requires i >= 0 => if offset <= i < offset + |p| then p[i - offset] else if i < |data| then data[i] else 0)
  }

  lemma OverwriteSpares(data: Bytes, at: nat, p: Bytes, from: nat, to: nat)
    requires from <= to <= |data| && (to <= at || at + |p| <= from)
    ensures Overwrite(data, at, p)[from..to] == data[from..to]
  {
  }

  lemma OverwriteExtends(data: Bytes, from: nat, p: Bytes, n: nat)
    requires n < |p| && (n > 0 ==> from + n <= |data| && data[from..from + n] == p[..n])
    ensures Overwrite(data, from + n, [p[n]])[from..from + n + 1] == p[..n + 1]
  {
    var d := Overwrite(data, from + n, [p[n]]);
    forall j | 0 <= j <= n ensures d[from + j] == p[j] {
      if j < n {
        assert data[from..from + n][j] == p[..n][j];
      }
    }
  }

  /** One byte of a copy. A closed buffer no longer refers to the bytes. */
  function Copied(b: Buffer, i: nat, x: Byte): Buffer {
    if b.closed then b else b.(data := Overwrite(b.data, i, [x]))
  }

  function Advanced(b: Buffer): Buffer
    requires forall k :: 0 <= k < |b.order| ==> b.order[k] in b.regions
  {
    var n := Scan(b.order, b.regions, 0);
    b.(ready := if n > b.ready then n else b.ready)
  }

  function Grown(b: Buffer, id: nat, n: nat): Buffer
    requires id in b.regions && forall k :: 0 <= k < |b.order| ==> b.order[k] in b.regions
  {
    Advanced(b.(regions := b.regions[id := b.regions[id].(written := b.regions[id].written + n)]))
  }

  /** The tail of `Write`, after all bytes were copied. */
  function Ended(b: Buffer, k: Books, id: nat, n: nat, ram: bool): (Buffer, Books, Option<Error>)
    requires id in b.regions && (ram ==> b.pinned > 0)
    requires forall k :: 0 <= k < |b.order| ==> b.order[k] in b.regions
  {
    var (c, k') := if ram then Unpinned(b, k) else (b, k);
    if c.err.Some? then (c, k', c.err) else (Grown(c, id, n), k', None)
  }

  // ----- Growing -----------------------------------------------------------------------------

  function NewCapacity(k: Books, cap: nat, length: nat): nat {
    var wanted := Max(length, Max(2 * cap, MinGrowth));
    if k.fileLimit > 0 then Max(length, if wanted < k.fileLimit then wanted else k.fileLimit) else wanted
  }

  function Max(a: nat, b: nat): nat {
    if a < b then b else a
  }

  function Spilled(b: Buffer): Buffer {
    b.(onDisk := true, capacity := 0, reserved := 0)
  }

  /** Makes room for `length` bytes: more RAM, or the file when RAM is refused. */
  function MadeRoom(b: Buffer, k: Books, length: nat, spill: bool): (Buffer, Books, Option<Error>) {
    if b.onDisk || length <= b.capacity then (b, k, None)
    else
      var capacity := NewCapacity(k, b.capacity, length);
      if Reserves(k, capacity, capacity - b.reserved) then
        (b.(capacity := capacity, reserved := capacity), k.(used := k.used + (capacity - b.reserved)), None)
      else if spill then (Spilled(b), Release(k, b.reserved), None)
      else (b.(err := Some(ErrDisk)), k, Some(ErrDisk))
  }

  /**
   The bytes of an append once there is room. A failed file write may leave any
   bytes behind from the append's offset on.
   */
  function Stored(b: Buffer, id: nat, p: Bytes, write: bool, garbage: Bytes): (Buffer, Option<Error>)
    requires id in b.regions && forall k :: 0 <= k < |b.order| ==> b.order[k] in b.regions
  {
    var at := b.regions[id].written;
    if !b.onDisk then (Grown(b.(data := b.data + p), id, |p|), None)
    else if write then (Grown(b.(data := Overwrite(b.data, at, p)), id, |p|), None)
    else (b.(data := Overwrite(b.data, at, garbage)), Some(ErrDisk))
  }

  /**
   An append to a growing buffer. `spill` and `write` say whether the temporary
   file could be filled and written.
   */
  function Appended(b: Buffer, k: Books, id: nat, p: Bytes, spill: bool, write: bool, garbage: Bytes): (Buffer, Books, Option<Error>)
    requires id in b.regions && forall k :: 0 <= k < |b.order| ==> b.order[k] in b.regions
  {
    var (c, k', e) := MadeRoom(b, k, b.regions[id].written + |p|, spill);
    if e.Some? then (c, k', e)
    else
      var (d, e') := Stored(c, id, p, write, garbage);
      (d, k', e')
  }

  // ----- Ending ---------------------------------------------------------------------------

  function Completed(b: Buffer): (Buffer, Option<Error>) {
    if b.err.Some? then (b, b.err)
    else
      var c := if b.size < 0 then b.(size := b.ready) else b;
      if c.ready != c.size then (c, Some(ErrUnexpectedEOF)) else (c.(complete := true), None)
  }

  function Failed(b: Buffer, e: Error): Buffer {
    if !b.complete && b.err.None? then b.(err := Some(e)) else b
  }

  /** Closing drops the bytes; RAM passed to calls still inside stays reserved until they leave. */
  function Closed(b: Buffer, k: Books): (Buffer, Books) {
    if b.closed then (b, k)
    else
      var c := b.(closed := true, err := Some(ErrClosed),
                  data := if b.onDisk then b.data else [], capacity := if b.onDisk then b.capacity else 0);
      if c.pinned == 0 then (c.(reserved := 0), Release(k, c.reserved)) else (c, k)
  }

  /** A new buffer: RAM when the store admits it, else a file if one can be made. */
  function Created(k: Books, size: int, file: bool): (Option<Buffer>, Books) {
    var b := Buffer(size, [], false, 0, 0, 0, [], map[], 0, None, false, false);
    if size < 0 then (Some(b), k)
    else if Reserves(k, size, size) then
      (Some(b.(data := seq(size, _ => 0), capacity := size, reserved := size)), k.(used := k.used + size))
    else if file then (Some(b.(onDisk := true)), k)
    else (None, k)
  }

  // ----- Reading -----------------------------------------------------------------------------

  /** What `ReadAt` of `n` bytes returns. */
  function ReadAt(b: Buffer, n: nat, off: nat): (Bytes, Option<Error>)
    requires b.ready <= |b.data| || b.closed
  {
    if b.closed then ([], Some(ErrClosed))
    else if off >= b.ready then
      ([], Some(if b.complete then ErrEOF else if b.err.Some? then b.err.value else ErrIncomplete))
    else
      var m := if n < b.ready - off then n else b.ready - off;
      (b.data[off..off + m], if m == n then None else Some(if b.complete then ErrEOF else ErrIncomplete))
  }

  // ----- Exactly when what happens ------------------------------------------------------------

  /**
   How a read of an open buffer ends: without an error exactly when all it asks for
   has arrived; else with the end of the data exactly when they are complete, and
   with the buffer's error only past what has arrived.
   */
  lemma ReadEndsExactly(b: Buffer, n: nat, off: nat)
    requires b.ready <= |b.data| && !b.closed
    ensures var (p, e) := ReadAt(b, n, off);
            && |p| == (if off >= b.ready then 0 else if off + n <= b.ready then n else b.ready - off)
            && (e == None <==> off < b.ready && off + n <= b.ready)
            && (e != None ==>
                  e.value == if b.complete then ErrEOF
                             else if off >= b.ready && b.err.Some? then b.err.value
                             else ErrIncomplete)
  {
  }

  /** The range and the buffer, if its size is known, have room for `n` more bytes. */
  predicate HasRoom(b: Buffer, id: nat, n: nat)
    requires id in b.regions
  {
    var r := b.regions[id];
    (r.end < 0 || r.Next() + n <= r.end) && (b.size < 0 || r.Next() + n <= b.size)
  }

  /** A write is refused exactly when the buffer has failed, with its error, or when it would run over. */
  lemma RefusedExactlyWhen(b: Buffer, id: nat, n: nat)
    requires id in b.regions
    ensures Begin(b, id, n).Refused? <==> b.err.Some? || !HasRoom(b, id, n)
    ensures Begin(b, id, n).Refused? ==> Begin(b, id, n).error == if b.err.Some? then b.err.value else ErrOverflow
    ensures Begin(b, id, n).Appending? ==> b.size < 0
    ensures Begin(b, id, n).Copying? ==> b.size >= 0 && Begin(b, id, n).offset == b.regions[id].Next() && Begin(b, id, n).ram == !b.onDisk
  {
  }

  /**
   An append fails for want of room exactly when it needs more RAM, that is not
   admitted, and the bytes cannot be spilled either. RAM is tried first.
   */
  lemma NoRoomExactlyWhen(b: Buffer, k: Books, length: nat, spill: bool)
    ensures var wanted := NewCapacity(k, b.capacity, length);
            var needs, admits := !b.onDisk && length > b.capacity, Reserves(k, wanted, wanted - b.reserved);
            var (c, l, e) := MadeRoom(b, k, length, spill);
            && (e == None <==> !needs || admits || spill)
            && (e == None ==> c.onDisk || length <= c.capacity)
            && (e == None ==> (c.onDisk <==> b.onDisk || (needs && !admits)) && c.err == b.err)
            && (e != None ==> e == Some(ErrDisk) && c.err == e)
            && c.data == b.data && c.regions == b.regions && c.ready == b.ready
  {
  }

  /** Growth doubles, so few bytes are moved, and reserves at most twice what is needed, or what the smallest step or the file limit gives. */
  lemma GrowthIsBounded(k: Books, cap: nat, length: nat)
    requires cap < length
    ensures var n := NewCapacity(k, cap, length);
            && length <= n
            && (n >= 2 * cap || n == k.fileLimit || n == length) && (n >= MinGrowth || n == k.fileLimit || n == length)
            && n <= Max(2 * length, MinGrowth)
            && (k.fileLimit > 0 && length <= k.fileLimit ==> n <= k.fileLimit)
            && (k.fileLimit <= 0 ==> n >= 2 * cap && n >= MinGrowth)
  {
  }

  /** The first failure of an incomplete buffer is what every writer, every reader past the ready bytes and `Complete` are told. */
  lemma FirstFailureStays(b: Buffer, first: Error, second: Error, id: nat, n: nat, off: nat)
    requires !b.closed && b.ready <= |b.data| && id in b.regions
    ensures var c := Failed(b, first);
            && (b.complete || b.err.Some? ==> c == b)
            && (!b.complete && b.err.None? ==>
                  && Failed(c, second) == c && c.ready == b.ready && c.data == b.data
                  && Begin(c, id, n) == Refused(first)
                  && Completed(c) == (c, Some(first))
                  && (off >= c.ready ==> ReadAt(c, n, off) == ([], Some(first))))
  {
  }

  /** A buffer of known size is made in RAM exactly when that is admitted, else in a file, and not at all only if none can be made; a growing one starts with nothing. */
  lemma MadeExactly(k: Books, size: int, file: bool)
    ensures var (b, l) := Created(k, size, file);
            && (b.None? <==> size >= 0 && !Reserves(k, size, size) && !file)
            && (b.Some? ==> b.value.size == size && b.value.ready == 0 && b.value.order == [] && b.value.err == None && !b.value.complete && !b.value.closed)
            && (b.Some? && size >= 0 ==>
                  && (b.value.onDisk <==> !Reserves(k, size, size))
                  && b.value.reserved == (if b.value.onDisk then 0 else size) && |b.value.data| == b.value.reserved)
            && (size < 0 ==> b.value.reserved == 0 && b.value.data == [] && !b.value.onDisk)
            && l.used == k.used + if b.Some? then b.value.reserved else 0
  {
  }

  /** A closed buffer gives nothing and takes nothing. */
  lemma ClosedIsOver(b: Buffer, k: Books, id: nat, n: nat, off: nat, e: Error)
    requires !b.closed && id in b.regions
    ensures var c := Closed(b, k).0;
            && ReadAt(c, n, off) == ([], Some(ErrClosed))
            && Begin(c, id, n) == Refused(ErrClosed)
            && Completed(c) == (c, Some(ErrClosed))
            && Failed(c, e) == c
            && Closed(c, k) == (c, k)
  {
  }

  /** A growing buffer takes the size it has when it is completed. */
  lemma GrowingCompletes(b: Buffer)
    requires b.size < 0 && b.err == None
    ensures Completed(b) == (b.(size := b.ready, complete := true), None)
  {
  }

  // ----- Regions stay disjoint and `ready` stays exact ---------------------------------------

  ghost predicate Listed(order: seq<nat>, rs: map<nat, Region>, id: nat) {
    id in rs ==> id in order
  }

  ghost predicate RegionsOk(b: Buffer) {
    && Separate(b.order, b.regions)
    && (forall id {:trigger Listed(b.order, b.regions, id)} :: Listed(b.order, b.regions, id))
    && b.ready == Scan(b.order, b.regions, 0)
    && (b.size < 0 ==> |b.order| <= 1 && forall id <- b.regions :: b.regions[id].start == 0 && b.regions[id].end < 0)
    && (forall id <- b.regions :: b.regions[id].end < 0 ==> |b.order| == 1 && b.regions[id].start == 0 && (b.size >= 0 ==> b.complete))
  }

  /** Two ranges share no byte. */
  lemma RangesAreDisjoint(b: Buffer, id: nat, other: nat)
    requires Separate(b.order, b.regions) && id in b.order && other in b.order && id != other
    ensures var r, s := b.regions[id], b.regions[other];
            Empty(r) || Empty(s) || (0 <= r.end <= s.start) || (0 <= s.end <= r.start)
  {
    var k :| 0 <= k < |b.order| && b.order[k] == id;
    var l :| 0 <= l < |b.order| && b.order[l] == other;
    assert Apart(b.order, b.regions, k, l) && Apart(b.order, b.regions, l, k);
  }

  /** An unbounded range is alone, so everything it finished is ready. */
  lemma UnboundedIsReady(b: Buffer, id: nat)
    requires RegionsOk(b) && id in b.regions && b.regions[id].end < 0
    ensures b.order == [id] && b.ready == b.regions[id].written
  {
    assert Listed(b.order, b.regions, id);
    assert b.order == [id];
  }

  /** The next byte of an unfinished range is not in the ready prefix. */
  lemma UnwrittenIsAhead(b: Buffer, id: nat, i: nat)
    requires RegionsOk(b) && id in b.regions
    requires b.regions[id].Next() <= i && (b.regions[id].end < 0 || i < b.regions[id].end)
    ensures !Covered(b.order, b.regions, i)
    ensures b.ready <= i
  {
    assert Listed(b.order, b.regions, id);
    if Covered(b.order, b.regions, i) {
      var other :| other in b.order && other in b.regions && b.regions[other].start <= i < b.regions[other].Next();
      RangesAreDisjoint(b, id, other);
    }
    ScanIsLongestPrefix(b.order, b.regions);
  }

  lemma OpenKeepsSeparate(b: Buffer, id: nat, start: nat, end: int)
    requires RegionsOk(b) && MayOpen(b, id, start, end)
    ensures Separate(Open(b, id, start, end).order, Open(b, id, start, end).regions)
  {
    var p := Place(b.order, b.regions, start);
    var c := Open(b, id, start, end);
    var added := Region(start, end, 0);
    forall i | 0 <= i < |b.order|
      ensures i < p ==> Before(b.regions[b.order[i]], added)
      ensures i >= p ==> Before(added, b.regions[b.order[i]])
    {
      assert Apart(b.order, b.regions, p, i);
    }
    PlacedIsSeparate(b.order, b.regions, p, id, added);
  }

  lemma PlacedIsApart(order: seq<nat>, rs: map<nat, Region>, p: nat, id: nat, added: Region, k: nat, l: nat)
    requires forall i, j {:trigger Apart(order, rs, i, j)} :: Apart(order, rs, i, j)
    requires (forall i :: 0 <= i < |order| ==> order[i] in rs) && p <= |order| && id !in order
    requires forall i :: 0 <= i < p ==> Before(rs[order[i]], added)
    requires forall i :: p <= i < |order| ==> Before(added, rs[order[i]])
    ensures Apart(order[..p] + [id] + order[p..], rs[id := added], k, l)
  {
    assert Apart(order, rs, if k < p then k else k - 1, if l < p then l else l - 1);
  }

  lemma PlacedIsSeparate(order: seq<nat>, rs: map<nat, Region>, p: nat, id: nat, added: Region)
    requires Separate(order, rs) && p <= |order| && id !in order
    requires forall i :: 0 <= i < |order| ==> rs[order[i]].end >= 0
    requires (added.end < 0 && order == []) || added.Next() <= added.end
    requires forall i :: 0 <= i < p ==> Before(rs[order[i]], added)
    requires forall i :: p <= i < |order| ==> Before(added, rs[order[i]])
    ensures Separate(order[..p] + [id] + order[p..], rs[id := added])
  {
    var order', rs' := order[..p] + [id] + order[p..], rs[id := added];
    forall i | 0 <= i < |order'|
      ensures order'[i] == if i < p then order[i] else if i == p then id else order[i - 1]
    {
    }
    forall k, l
      ensures Apart(order', rs', k, l)
    {
      if 0 <= k < l {
        PlacedIsApart(order, rs, p, id, added, k, l);
      }
    }
  }

  /** A new range has nothing written, so the scan ends where it did. */
  lemma OpenScansAlike(b: Buffer, id: nat, start: nat, end: int)
    requires Separate(b.order, b.regions) && MayOpen(b, id, start, end)
    requires Separate(Open(b, id, start, end).order, Open(b, id, start, end).regions)
    ensures Scan(Open(b, id, start, end).order, Open(b, id, start, end).regions, 0) == Scan(b.order, b.regions, 0)
  {
    var c := Open(b, id, start, end);
    ScanIsLongestPrefix(b.order, b.regions);
    ScanIsLongestPrefix(c.order, c.regions);
    assert forall j :: j in c.order <==> j == id || j in b.order;
    assert forall i :: Covered(b.order, b.regions, i) <==> Covered(c.order, c.regions, i);
    PrefixIsUnique(b.order, b.regions, Scan(b.order, b.regions, 0), Scan(c.order, c.regions, 0));
  }

  lemma OpenKeepsRegions(b: Buffer, id: nat, start: nat, end: int)
    requires RegionsOk(b) && MayOpen(b, id, start, end)
    ensures RegionsOk(Open(b, id, start, end))
  {
    var c := Open(b, id, start, end);
    OpenKeepsSeparate(b, id, start, end);
    OpenScansAlike(b, id, start, end);
    forall j: nat ensures Listed(c.order, c.regions, j) {
      assert Listed(b.order, b.regions, j);
      assert id in c.order && (j in b.order ==> j in c.order);
    }
    forall j <- b.regions ensures b.regions[j].end >= 0 {
      assert Listed(b.order, b.regions, j);
    }
  }

  lemma GrowKeepsSeparate(order: seq<nat>, rs: map<nat, Region>, id: nat, r: Region)
    requires Separate(order, rs) && id in rs
    requires r.start == rs[id].start && r.end == rs[id].end && (r.end < 0 || r.Next() <= r.end)
    ensures Separate(order, rs[id := r])
  {
    var rs' := rs[id := r];
    forall k, l ensures Apart(order, rs', k, l) {
      assert Apart(order, rs, k, l);
    }
  }

  lemma MoreWrittenScansFurther(order: seq<nat>, rs: map<nat, Region>, rs': map<nat, Region>)
    requires Separate(order, rs) && Separate(order, rs')
    requires forall id <- rs :: id in rs' && rs'[id].start == rs[id].start && rs[id].written <= rs'[id].written
    ensures Scan(order, rs, 0) <= Scan(order, rs', 0)
  {
    ScanIsLongestPrefix(order, rs);
    ScanIsLongestPrefix(order, rs');
    forall i | Covered(order, rs, i) ensures Covered(order, rs', i) {
      var id :| id in order && id in rs && rs[id].start <= i < rs[id].Next();
      assert rs'[id].start <= i < rs'[id].Next();
    }
  }

  /** The regions of `b` after writer `id` finished `n` more bytes. */
  ghost function After(b: Buffer, id: nat, n: nat): map<nat, Region>
    requires id in b.regions
  {
    b.regions[id := b.regions[id].(written := b.regions[id].written + n)]
  }

  lemma GrowKeepsRanges(b: Buffer, id: nat, n: nat)
    requires RegionsOk(b) && id in b.regions
    requires b.regions[id].end < 0 || b.regions[id].Next() + n <= b.regions[id].end
    ensures Separate(b.order, After(b, id, n))
  {
    GrowKeepsSeparate(b.order, b.regions, id, After(b, id, n)[id]);
  }

  lemma GrowIsScan(b: Buffer, id: nat, n: nat)
    requires RegionsOk(b) && id in b.regions && Separate(b.order, After(b, id, n))
    ensures b.ready <= Scan(b.order, After(b, id, n), 0)
    ensures Grown(b, id, n) == b.(regions := After(b, id, n), ready := Scan(b.order, After(b, id, n), 0))
  {
    MoreWrittenScansFurther(b.order, b.regions, After(b, id, n));
  }

  lemma SameRangesAreOk(b: Buffer, c: Buffer)
    requires RegionsOk(b) && Separate(c.order, c.regions) && c.ready == Scan(c.order, c.regions, 0)
    requires c.order == b.order && c.regions.Keys == b.regions.Keys && c.size == b.size && c.complete == b.complete
    requires forall j <- c.regions :: c.regions[j].start == b.regions[j].start && c.regions[j].end == b.regions[j].end
    ensures RegionsOk(c)
  {
    forall j: nat ensures Listed(c.order, c.regions, j) {
      assert Listed(b.order, b.regions, j);
    }
  }

  lemma GrowKeepsRegions(b: Buffer, id: nat, n: nat)
    requires RegionsOk(b) && id in b.regions
    requires b.regions[id].end < 0 || b.regions[id].Next() + n <= b.regions[id].end
    ensures RegionsOk(Grown(b, id, n))
    ensures b.ready <= Grown(b, id, n).ready
  {
    GrowKeepsRanges(b, id, n);
    GrowIsScan(b, id, n);
    SameRangesAreOk(b, Grown(b, id, n));
  }
}
