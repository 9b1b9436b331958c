/**
 The buffer and the store as objects. Each locked section is a method whose
 effect on the fields is the step of the same name in module `Spool`.
 */
module SpoolBuffer {
  import opened Common
  import S = Spool

  class Store {
    const fileLimit: int
    const budget: int
    var used: int

    constructor (fileLimit: int, budget: int)
      ensures this.fileLimit == fileLimit && this.budget == budget && used == 0
    {
      this.fileLimit, this.budget, used := fileLimit, budget, 0;
    }

    function Books(): S.Books
      reads this
    {
      S.Books(fileLimit, budget, used)
    }

    method Reserve(total: int, delta: int) returns (ok: bool)
      modifies this
      ensures ok <==> S.Reserves(old(Books()), total, delta)
      ensures used == old(used) + if ok then delta else 0
    {
      if total > fileLimit || used + delta > budget {
        return false;
      }
      used := used + delta;
      return true;
    }

    method Release(n: nat)
      modifies this
      ensures Books() == S.Release(old(Books()), n)
    {
      if n != 0 {
        used := used - n;
      }
    }
  }

  class Buffer {
    const store: Store
    var size: int
    var data: S.Bytes
    var onDisk: bool
    var capacity: nat
    var reserved: nat
    var pinned: nat
    var order: seq<nat>
    var regions: map<nat, S.Region>
    var ready: nat
    var err: Option<S.Error>
    var complete: bool
    var closed: bool

    ghost function View(): S.Buffer
      reads this
    {
      S.Buffer(size, data, onDisk, capacity, reserved, pinned, order, regions, ready, err, complete, closed)
    }

    /** Every listed range is there. */
    ghost predicate Valid()
      reads this
    {
      forall k :: 0 <= k < |order| ==> order[k] in regions
    }

    /** `file` says whether a temporary file can be made; if not, `failed` and nothing is usable. */
    constructor (store: Store, size: int, file: bool)
      modifies store
      ensures this.store == store
      ensures var (b, k) := S.Created(old(store.Books()), size, file);
              store.Books() == k && (b.Some? ==> Valid() && View() == b.value) && (b.None? ==> err == Some(S.ErrDisk))
    {
      this.store := store;
      this.size := size;
      data, onDisk, capacity, reserved, pinned := [], false, 0, 0, 0;
      order, regions, ready, err, complete, closed := [], map[], 0, None, false, false;
      new;
      if size >= 0 {
        var ok := store.Reserve(size, size);
        if ok {
          data, capacity, reserved := seq(size, _ => 0), size, size;
        } else if file {
          onDisk := true;
        } else {
          err := Some(S.ErrDisk);
        }
      }
    }

    /** Opens a range, overlapping or not, kept sorted by start: a binary search, then an insertion. */
    method Writer(id: nat, start: nat, end: int)
      requires Valid() && S.Sorted(order, regions) && id !in regions
      modifies this`order, this`regions
      ensures Valid() && S.Sorted(order, regions) && View() == S.Open(old(View()), id, start, end)
    {
      S.PlaceKeepsSorted(order, regions, id, S.Region(start, end, 0));
      var lo := Search(start);
      order := order[..lo] + [id] + order[lo..];
      regions := regions[id := S.Region(start, end, 0)];
    }

    method Search(start: nat) returns (lo: nat)
      requires Valid() && S.Sorted(order, regions)
      ensures lo == S.Place(order, regions, start)
    {
      var hi := |order|;
      lo := 0;
      while lo < hi
        invariant 0 <= lo <= hi <= |order|
        invariant forall j :: 0 <= j < lo ==> regions[order[j]].start < start
        invariant forall j :: hi <= j < |order| ==> start <= regions[order[j]].start
      {
        var mid := (lo + hi) / 2;
        if regions[order[mid]].start >= start {
          hi := mid;
        } else {
          lo := mid + 1;
        }
      }
      S.PlaceIs(order, regions, start, lo);
    }

    /** Recomputes the ready prefix; it never moves back. */
    method AdvanceLocked()
      requires Valid()
      modifies this`ready
      ensures View() == S.Advanced(old(View()))
    {
      var prefix: nat, i := 0, 0;
      assert order[0..] == order;
      while i < |order|
        invariant 0 <= i <= |order|
        invariant S.Scan(order, regions, 0) == S.Scan(order[i..], regions, prefix)
      {
        var r := regions[order[i]];
        assert order[i..][0] == order[i] && order[i..][1..] == order[i + 1..];
        if r.start > prefix {
          break;
        }
        prefix := if prefix < r.Next() then r.Next() else prefix;
        if r.end < 0 || r.Next() < r.end {
          break;
        }
        i := i + 1;
      }
      assert prefix == S.Scan(order, regions, 0);
      if prefix > ready {
        ready := prefix;
      }
    }

    method UnpinLocked()
      requires pinned > 0
      modifies this`pinned, this`reserved, store
      ensures (View(), store.Books()) == S.Unpinned(old(View()), old(store.Books()))
    {
      pinned := pinned - 1;
      if closed && pinned == 0 {
        store.Release(reserved);
        reserved := 0;
      }
    }

    /** The first locked section of `Write`. An append is done whole, under this lock. */
    method BeginWrite(id: nat, n: nat) returns (begun: S.Begun)
      requires Valid() && id in regions
      modifies this`pinned
      ensures begun == S.Begin(old(View()), id, n)
      ensures View() == if begun.Copying? && begun.ram then S.Pinned(old(View())) else old(View())
    {
      if err.Some? {
        return S.Refused(err.value);
      }
      var offset := regions[id].Next();
      if (regions[id].end >= 0 && n > regions[id].end - offset) || (size >= 0 && offset + n > size) {
        return S.Refused(S.ErrOverflow);
      }
      if size < 0 {
        return S.Appending;
      }
      if !onDisk {
        pinned := pinned + 1;
      }
      return S.Copying(offset, !onDisk);
    }

    /** The second locked section of `Write`, once the bytes are copied. */
    method EndWrite(id: nat, n: nat, ram: bool) returns (e: Option<S.Error>)
      requires Valid() && id in regions && (ram ==> pinned > 0)
      modifies this, store
      ensures Valid()
      ensures (View(), store.Books(), e) == S.Ended(old(View()), old(store.Books()), id, n, ram)
    {
      if ram {
        UnpinLocked();
      }
      if err.Some? {
        return err;
      }
      regions := regions[id := regions[id].(written := regions[id].written + n)];
      AdvanceLocked();
      return None;
    }

    method SpillLocked(spill: bool) returns (e: Option<S.Error>)
      modifies this, store
      ensures e == if spill then None else Some(S.ErrDisk)
      ensures View() == if spill then S.Spilled(old(View())) else old(View())
      ensures store.Books() == if spill then S.Release(old(store.Books()), old(reserved)) else old(store.Books())
    {
      if !spill {
        return Some(S.ErrDisk);
      }
      store.Release(reserved);
      onDisk, capacity, reserved := true, 0, 0;
      return None;
    }

    /** The first half of an append: room for `length` bytes, or an error. */
    method MakeRoomLocked(length: nat, spill: bool) returns (e: Option<S.Error>)
      modifies this, store
      ensures (View(), store.Books(), e) == S.MadeRoom(old(View()), old(store.Books()), length, spill)
    {
      if onDisk || length <= capacity {
        return None;
      }
      var wanted := S.NewCapacity(store.Books(), capacity, length);
      var ok := store.Reserve(wanted, wanted - reserved);
      if ok {
        capacity, reserved := wanted, wanted;
        return None;
      }
      e := SpillLocked(spill);
      if e.Some? {
        err := e;
      }
    }

    method AppendLocked(id: nat, p: S.Bytes, spill: bool, write: bool, garbage: S.Bytes) returns (e: Option<S.Error>)
      requires Valid() && id in regions
      modifies this, store
      ensures Valid()
      ensures (View(), store.Books(), e) == S.Appended(old(View()), old(store.Books()), id, p, spill, write, garbage)
    {
      var at := regions[id].written;
      e := MakeRoomLocked(at + |p|, spill);
      if e == None {
        e := StoreLocked(id, p, write, garbage);
      }
    }

    /** The second half: the bytes themselves, in RAM or in the file. */
    method StoreLocked(id: nat, p: S.Bytes, write: bool, garbage: S.Bytes) returns (e: Option<S.Error>)
      requires Valid() && id in regions
      modifies this`data, this`regions, this`ready
      ensures Valid()
      ensures (View(), e) == S.Stored(old(View()), id, p, write, garbage)
    {
      var at := regions[id].written;
      if !onDisk {
        data := data + p;
      } else if write {
        data := S.Overwrite(data, at, p);
      } else {
        data := S.Overwrite(data, at, garbage);
        return Some(S.ErrDisk);
      }
      regions := regions[id := regions[id].(written := at + |p|)];
      AdvanceLocked();
      return None;
    }

    method Complete() returns (e: Option<S.Error>)
      modifies this`size, this`complete
      ensures (View(), e) == S.Completed(old(View()))
    {
      if err.Some? {
        return err;
      }
      if size < 0 {
        size := ready;
      }
      if ready != size {
        return Some(S.ErrUnexpectedEOF);
      }
      complete := true;
      return None;
    }

    method Fail(e: S.Error)
      modifies this`err
      ensures View() == S.Failed(old(View()), e)
    {
      if !complete && err == None {
        err := Some(e);
      }
    }

    method Close()
      modifies this, store
      ensures (View(), store.Books()) == S.Closed(old(View()), old(store.Books()))
    {
      if closed {
        return;
      }
      closed, err := true, Some(S.ErrClosed);
      if pinned == 0 {
        store.Release(reserved);
        reserved := 0;
      }
      if !onDisk {
        data, capacity := [], 0;
      }
    }

    /** Bytes that have arrived, from `off` on, at most `n`. */
    method ReadAt(n: nat, off: int) returns (p: S.Bytes, e: Option<S.Error>)
      requires closed || ready <= |data|
      ensures (p, e) == if off < 0 then ([], Some(S.ErrNegativeOffset)) else S.ReadAt(View(), n, off)
    {
      if off < 0 {
        return [], Some(S.ErrNegativeOffset);
      }
      if closed {
        return [], Some(S.ErrClosed);
      }
      if off >= ready {
        return [], Some(if complete then S.ErrEOF else if err.Some? then err.value else S.ErrIncomplete);
      }
      var m := if n < ready - off then n else ready - off;
      p, e := data[off..off + m], None;
      if m < n {
        e := Some(if complete then S.ErrEOF else S.ErrIncomplete);
      }
    }
  }
}
