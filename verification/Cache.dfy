/**
 The cache as it is kept: a map of entries, a recency list and an indexed heap of
 deadlines, changed together by every call. Time is a parameter.
 */
module Cache {
  import opened Common
  import opened ExpiryHeap
  import L = Lru

  /** A cached value; `index` is its place in the heap. */
  datatype Item<T> = Item(value: T, expires: int, index: int)

  type Items<T> = map<string, Item<T>>

  // ----- What the fields say -------------------------------------------------------------

  /** The list without `key`. */
  function Unlinked(order: seq<string>, key: string): (r: seq<string>)
    ensures (forall k <- r :: k in order && k != key) && forall k <- order :: k != key ==> k in r
  {
    if order == [] then [] else (if order[0] == key then [] else [order[0]]) + Unlinked(order[1..], key)
  }

  ghost function Listing<T>(order: seq<string>, e: Items<T>): L.Lru<T>
    requires forall k <- order :: k in e
  {
    if order == [] then [] else [L.Entry(order[0], e[order[0]].value, e[order[0]].expires)] + Listing(order[1..], e)
  }

  /** The heap's entries know their places. */
  ghost predicate Indexed<T>(h: seq<string>, e: Items<T>) {
    forall k :: 0 <= k < |h| ==> h[k] in e && e[h[k]].index == k
  }

  /** The deadlines in heap order. */
  ghost function Times<T>(h: seq<string>, e: Items<T>): (t: seq<int>)
    requires Indexed(h, e)
    ensures |t| == |h| && forall k :: 0 <= k < |h| ==> t[k] == e[h[k]].expires
  {
    seq(|h|, k requires 0 <= k < |h| => e[h[k]].expires)
  }

  ghost predicate SameItems<T>(e: Items<T>, f: Items<T>) {
    e.Keys == f.Keys && forall k <- e :: f[k].value == e[k].value && f[k].expires == e[k].expires
  }

  ghost predicate SameMembers(h: seq<string>, g: seq<string>) {
    |h| == |g| && (forall k <- h :: k in g) && forall k <- g :: k in h
  }

  lemma SwapKeepsMembers(h: seq<string>, i: nat, j: nat)
    requires i < |h| && j < |h|
    ensures SameMembers(h, h[i := h[j]][j := h[i]])
  {
    var g := h[i := h[j]][j := h[i]];
    forall k <- h ensures k in g {
      var x :| 0 <= x < |h| && h[x] == k;
      assert g[if x == i then j else if x == j then i else x] == k;
    }
  }

  ghost predicate NoTwice(order: seq<string>) {
    forall i, j :: 0 <= i < j < |order| ==> order[i] != order[j]
  }

  // ----- Lists -----------------------------------------------------------------------------

  lemma {:induction false} ListingIs<T>(order: seq<string>, e: Items<T>)
    requires forall k <- order :: k in e
    ensures |Listing(order, e)| == |order|
    ensures forall i :: 0 <= i < |order| ==> Listing(order, e)[i] == L.Entry(order[i], e[order[i]].value, e[order[i]].expires)
  {
    if order != [] {
      ListingIs(order[1..], e);
    }
  }

  lemma SameListing<T>(order: seq<string>, e: Items<T>, f: Items<T>)
    requires forall k <- order :: k in e && k in f && f[k].value == e[k].value && f[k].expires == e[k].expires
    ensures Listing(order, e) == Listing(order, f)
  {
    ListingIs(order, e);
    ListingIs(order, f);
  }

  lemma {:induction false} UnlinkedListing<T>(order: seq<string>, e: Items<T>, key: string)
    requires forall k <- order :: k in e
    ensures Listing(Unlinked(order, key), e) == L.Without(Listing(order, e), key)
  {
    if order != [] {
      UnlinkedListing(order[1..], e, key);
      if order[0] == key {
        assert Unlinked(order, key) == Unlinked(order[1..], key);
      } else {
        assert Unlinked(order, key) == [order[0]] + Unlinked(order[1..], key);
      }
      assert Listing(order, e)[1..] == Listing(order[1..], e);
    }
  }

  lemma {:induction false} UnlinkedHasNoneTwice(order: seq<string>, key: string)
    requires NoTwice(order)
    ensures NoTwice(Unlinked(order, key))
    ensures |Unlinked(order, key)| == |order| - if key in order then 1 else 0
  {
    if order != [] {
      assert order[0] !in order[1..];
      UnlinkedHasNoneTwice(order[1..], key);
      if order[0] == key {
        assert Unlinked(order, key) == Unlinked(order[1..], key);
      } else {
        assert Unlinked(order, key) == [order[0]] + Unlinked(order[1..], key);
        assert order[0] !in Unlinked(order[1..], key);
      }
    }
  }

  lemma {:induction false} FindListed<T>(order: seq<string>, e: Items<T>, key: string)
    requires forall k <- order :: k in e
    ensures L.Find(Listing(order, e), key) == if key in order then Some(L.Entry(key, e[key].value, e[key].expires)) else None
  {
    if order != [] && order[0] != key {
      FindListed(order[1..], e, key);
      assert Listing(order, e)[1..] == Listing(order[1..], e);
    }
  }

  lemma {:induction false} DroppingExpired<T>(s: L.Lru<T>, key: string, now: int)
    requires forall x <- s :: x.key == key ==> x.expires <= now
    ensures L.Live(L.Without(s, key), now) == L.Live(s, now)
  {
    if s != [] {
      DroppingExpired(s[1..], key, now);
      if s[0].key == key {
        assert L.Without(s, key) == L.Without(s[1..], key);
      } else {
        assert L.Without(s, key)[1..] == L.Without(s[1..], key);
      }
    }
  }

  lemma {:induction false} AllLive<T>(s: L.Lru<T>, now: int)
    requires forall x <- s :: now < x.expires
    ensures L.Live(s, now) == s
  {
    if s != [] {
      AllLive(s[1..], now);
    }
  }

  lemma {:induction false} NothingToDrop<T>(s: L.Lru<T>, key: string)
    ensures L.Find(s, key).None? ==> L.Without(s, key) == s
  {
    if s != [] {
      NothingToDrop(s[1..], key);
    }
  }

  lemma {:induction false} KeyHasOneDeadline<T>(order: seq<string>, e: Items<T>, key: string)
    requires forall k <- order :: k in e
    ensures forall x <- Listing(order, e) :: x.key in e && x.expires == e[x.key].expires
  {
    if order != [] {
      KeyHasOneDeadline(order[1..], e, key);
    }
  }

  /** With the earliest deadline still to come, so are all. */
  lemma RestIsLive<T>(order: seq<string>, e: Items<T>, h: seq<string>, now: int)
    requires (forall k <- order :: k in e) && (forall k <- e :: k in h)
    requires Indexed(h, e) && IsHeap(Times(h, e), |h|) && (h != [] ==> now < e[h[0]].expires)
    ensures L.Live(Listing(order, e), now) == Listing(order, e)
  {
    KeyHasOneDeadline(order, e, "");
    forall x <- Listing(order, e) ensures now < x.expires {
      var k :| 0 <= k < |h| && h[k] == x.key;
      RootIsEarliest(Times(h, e), k);
    }
    AllLive(Listing(order, e), now);
  }

  lemma DropsLast<T>(order: seq<string>, e: Items<T>)
    requires NoTwice(order) && order != [] && forall k <- order :: k in e
    ensures |Listing(order, e)| == |order|
    ensures L.Without(Listing(order, e), order[|order| - 1]) == Listing(order, e)[..|order| - 1]
  {
    ListingIs(order, e);
    WithoutLast(Listing(order, e));
  }

  lemma {:induction false} WithoutLast<T>(s: L.Lru<T>)
    requires s != [] && L.Distinct(s)
    ensures L.Without(s, s[|s| - 1].key) == s[..|s| - 1]
  {
    if |s| > 1 {
      WithoutLast(s[1..]);
    }
  }

  function Dropped<T>(e: Items<T>, key: string): Items<T> {
    map k | k in e && k != key :: e[k]
  }

  lemma ForgetsKey<T>(order: seq<string>, e: Items<T>, f: Items<T>, key: string)
    requires NoTwice(order) && SameItems(e, f) && forall k <- order :: k in e
    ensures NoTwice(Unlinked(order, key)) && |Unlinked(order, key)| <= |order|
    ensures forall k <- Unlinked(order, key) :: k in Dropped(f, key)
    ensures Listing(Unlinked(order, key), Dropped(f, key)) == L.Without(Listing(order, e), key)
  {
    UnlinkedHasNoneTwice(order, key);
    UnlinkedListing(order, e, key);
    SameListing(Unlinked(order, key), e, Dropped(f, key));
  }

  lemma HeapForgets<T>(h: seq<string>, e: Items<T>, key: string)
    requires Indexed(h, e) && key !in h
    ensures Indexed(h, Dropped(e, key)) && Times(h, Dropped(e, key)) == Times(h, e)
  {
    forall k | 0 <= k < |h| ensures h[k] != key {
      assert h[k] in h;
    }
  }

  class Cache<T> {
    var entries: Items<T>
    var order: seq<string>
    var expiry: seq<string>
    const capacity: nat
    const ttl: int

    /** The map, the list and the heap hold the same entries, the heap is one, and each entry knows its place in it. */
    ghost predicate Valid()
      reads this
    {
      && capacity > 0 && |order| <= capacity
      && NoTwice(order) && (forall k <- order :: k in entries) && (forall k <- entries :: k in order)
      && Heaped()
      && (forall k <- entries :: k in expiry)
    }

    ghost predicate Heaped()
      reads this
    {
      Indexed(expiry, entries) && IsHeap(Times(expiry, entries), |expiry|)
    }

    ghost function View(): L.Lru<T>
      reads this
      requires Valid()
    {
      Listing(order, entries)
    }

    constructor (ttl: int, capacity: int)
      ensures Valid() && View() == [] && this.ttl == ttl
      ensures this.capacity == if capacity < 1 then 1 else capacity
    {
      this.ttl := ttl;
      this.capacity := if capacity < 1 then 1 else capacity;
      entries, order, expiry := map[], [], [];
    }

    // ----- The heap ----------------------------------------------------------------------

    predicate Less(i: nat, j: nat)
      reads this
      requires i < |expiry| && j < |expiry| && expiry[i] in entries && expiry[j] in entries
    {
      entries[expiry[i]].expires < entries[expiry[j]].expires
    }

    method Swap(i: nat, j: nat)
      requires Indexed(expiry, entries) && i < |expiry| && j < |expiry| && i != j
      modifies `expiry, `entries
      ensures expiry == old(expiry)[i := old(expiry)[j]][j := old(expiry)[i]]
      ensures Indexed(expiry, entries) && SameItems(old(entries), entries) && SameMembers(old(expiry), expiry)
      ensures Times(expiry, entries) == Swapped(old(Times(expiry, entries)), i, j)
    {
      ghost var was := entries;
      expiry := expiry[i := expiry[j]][j := expiry[i]];
      entries := entries[expiry[i] := entries[expiry[i]].(index := i)];
      entries := entries[expiry[j] := entries[expiry[j]].(index := j)];
      assert forall k :: 0 <= k < |expiry| && k != i && k != j ==> was[expiry[k]].index == k;
      SwapKeepsMembers(old(expiry), i, j);
    }

    /** Moves entry `start` down among the first `n` until no child is earlier. */
    method Down(start: nat, n: nat) returns (moved: bool)
      requires Indexed(expiry, entries) && start < n <= |expiry|
      requires AllBut(Times(expiry, entries), n, start, true, true)
      modifies `expiry, `entries
      ensures Indexed(expiry, entries) && SameItems(old(entries), entries) && SameMembers(old(expiry), expiry)
      ensures expiry[n..] == old(expiry[n..])
      ensures if moved then IsHeap(Times(expiry, entries), n) else AllBut(Times(expiry, entries), n, start, true, false)
    {
      var i := start;
      while true
        invariant start <= i < n <= |expiry|
        invariant Indexed(expiry, entries) && SameItems(old(entries), entries) && SameMembers(old(expiry), expiry)
        invariant expiry[n..] == old(expiry[n..])
        invariant AllBut(Times(expiry, entries), n, i, i == start, true)
        decreases n - i
      {
        ghost var t := Times(expiry, entries);
        var left := 2 * i + 1;
        if left >= n {
          DownStops(t, n, i, i == start);
          break;
        }
        var j := left;
        if left + 1 < n && Less(left + 1, left) {
          j := left + 1;
        }
        assert forall k: nat :: 0 < k < n && Parent(k) == i ==> k == left || k == left + 1;
        if !Less(j, i) {
          DownStops(t, n, i, i == start);
          break;
        }
        DownStep(t, n, i, j, i == start);
        Swap(i, j);
        i := j;
      }
      moved := i > start;
    }

    /** Moves entry `start` up, among the first `n`, until its parent is not later. */
    method Up(start: nat, ghost n: nat)
      requires Indexed(expiry, entries) && start < n <= |expiry|
      requires AllBut(Times(expiry, entries), n, start, true, false)
      modifies `expiry, `entries
      ensures Indexed(expiry, entries) && SameItems(old(entries), entries) && SameMembers(old(expiry), expiry)
      ensures expiry[n..] == old(expiry[n..])
      ensures IsHeap(Times(expiry, entries), n)
    {
      var j: nat := start;
      while true
        invariant j < n <= |expiry|
        invariant Indexed(expiry, entries) && SameItems(old(entries), entries) && SameMembers(old(expiry), expiry)
        invariant expiry[n..] == old(expiry[n..])
        invariant AllBut(Times(expiry, entries), n, j, true, false)
        decreases j
      {
        ghost var t := Times(expiry, entries);
        if j == 0 || !Less(j, (j - 1) / 2) {
          UpStops(t, n, j);
          break;
        }
        UpStep(t, n, j);
        Swap((j - 1) / 2, j);
        j := (j - 1) / 2;
      }
    }

    method Push(key: string)
      requires Heaped() && key in entries && key !in expiry
      modifies `expiry, `entries
      ensures Heaped() && SameItems(old(entries), entries) && SameMembers(old(expiry) + [key], expiry)
    {
      ghost var t := Times(expiry, entries);
      entries := entries[key := entries[key].(index := |expiry|)];
      expiry := expiry + [key];
      PushedIsAllBut(t, Times(expiry, entries));
      Up(|expiry| - 1, |expiry|);
    }

    /** Restores the order after the deadline at `i` changed; `t` are the deadlines before. */
    method Fix(i: nat, ghost t: seq<int>)
      requires Indexed(expiry, entries) && i < |expiry| == |t| && IsHeap(t, |t|)
      requires forall k :: 0 <= k < |t| && k != i ==> Times(expiry, entries)[k] == t[k]
      modifies `expiry, `entries
      ensures Heaped() && SameItems(old(entries), entries) && SameMembers(old(expiry), expiry)
    {
      ReplacedIsAllBut(t, Times(expiry, entries), |t|, i);
      var moved := Down(i, |expiry|);
      if !moved {
        Up(i, |expiry|);
      }
    }

    method Pop() returns (key: string)
      requires Indexed(expiry, entries) && expiry != [] && IsHeap(Times(expiry, entries), |expiry| - 1)
      modifies `expiry, `entries
      ensures Heaped() && SameItems(old(entries), entries)
      ensures key == old(expiry)[|old(expiry)| - 1] && expiry == old(expiry)[..|old(expiry)| - 1] && key !in expiry
    {
      var last := |expiry| - 1;
      ghost var t := Times(expiry, entries);
      key := expiry[last];
      expiry := expiry[..last];
      entries := entries[key := entries[key].(index := -1)];
      PrefixIsHeap(t, last);
      assert Times(expiry, entries) == t[..last];
    }

    /** Takes entry `i` out of the heap. */
    method HeapRemove(i: nat)
      requires Heaped() && i < |expiry|
      modifies `expiry, `entries
      ensures Heaped() && SameItems(old(entries), entries)
      ensures old(expiry)[i] !in expiry && |expiry| == |old(expiry)| - 1
      ensures forall k <- old(expiry) :: k != old(expiry)[i] ==> k in expiry
    {
      var n := |expiry| - 1;
      ghost var t := Times(expiry, entries);
      ghost var key := expiry[i];
      if n != i {
        Swap(i, n);
        ReplacedIsAllBut(t, Times(expiry, entries), n, i);
        var moved := Down(i, n);
        if !moved {
          Up(i, n);
        }
        assert expiry[n..] == [key];
      }
      assert expiry[n] == key && expiry == expiry[..n] + [key];
      var popped := Pop();
    }

    // ----- The calls -------------------------------------------------------------------------

    method Remove(key: string)
      requires Valid() && key in entries
      modifies this
      ensures Valid() && View() == L.Without(old(View()), key)
      ensures |expiry| < |old(expiry)|
    {
      ghost var was := entries;
      HeapRemove(entries[key].index);
      ForgetsKey(order, was, entries, key);
      HeapForgets(expiry, entries, key);
      order := Unlinked(order, key);
      entries := Dropped(entries, key);
    }

    /** The value, if it is there and its deadline has not come; it becomes the most recently used. */
    method Get(key: string, now: int) returns (value: Option<T>)
      requires Valid()
      modifies this
      ensures Valid() && (View(), value) == L.Get(old(View()), key, now)
    {
      FindListed(order, entries, key);
      if key !in entries {
        return None;
      }
      if entries[key].expires <= now {
        Remove(key);
        return None;
      }
      MoveToFront(key);
      return Some(entries[key].value);
    }

    method MoveToFront(key: string)
      requires Valid() && key in entries
      modifies `order
      ensures Valid() && order == [key] + Unlinked(old(order), key)
      ensures View() == [L.Entry(key, entries[key].value, entries[key].expires)] + L.Without(old(View()), key)
    {
      UnlinkedHasNoneTwice(order, key);
      UnlinkedListing(order, entries, key);
      order := [key] + Unlinked(order, key);
      assert order[1..] == Unlinked(old(order), key);
    }

    method Delete(key: string)
      requires Valid()
      modifies this
      ensures Valid() && View() == L.Without(old(View()), key)
    {
      FindListed(order, entries, key);
      NothingToDrop(View(), key);
      if key in entries {
        Remove(key);
      }
    }

    method Clear()
      requires Valid()
      modifies this
      ensures Valid() && View() == []
    {
      entries, order, expiry := map[], [], [];
    }

    /** Drops expired entries from the top of the heap until the earliest deadline is still to come. */
    method Purge(now: int)
      requires Valid()
      modifies this
      ensures Valid() && View() == L.Live(old(View()), now)
    {
      while expiry != [] && entries[expiry[0]].expires <= now
        invariant Valid() && L.Live(View(), now) == L.Live(old(View()), now)
        decreases |expiry|
      {
        var key := expiry[0];
        FindListed(order, entries, key);
        KeyHasOneDeadline(order, entries, key);
        DroppingExpired(View(), key, now);
        Remove(key);
      }
      RestIsLive(order, entries, expiry, now);
    }

    method Set(key: string, value: T, now: int)
      requires Valid()
      modifies this
      ensures Valid() && View() == L.Set(old(View()), capacity, key, value, now + ttl, now)
    {
      SetUntil(key, value, now + ttl, now);
    }

    method SetUntil(key: string, value: T, expires: int, now: int)
      requires Valid()
      modifies this
      ensures Valid() && View() == L.Set(old(View()), capacity, key, value, expires, now)
    {
      Purge(now);
      if expires <= now {
        Delete(key);
        return;
      }
      FindListed(order, entries, key);
      if key in entries {
        Renew(key, value, expires);
      } else {
        Evict(key);
        Insert(key, value, expires);
      }
    }

    /** Makes room for `key`: a full cache loses what was used longest ago. */
    method Evict(ghost key: string)
      requires Valid() && key !in entries
      modifies this
      ensures Valid() && key !in entries && |order| < capacity
      ensures var s := old(View()); View() == if |s| >= capacity then s[..|s| - 1] else s
    {
      ListingIs(order, entries);
      if |order| >= capacity {
        DropsLast(order, entries);
        FindListed(order, entries, key);
        Remove(order[|order| - 1]);
        FindListed(order, entries, key);
        ListingIs(order, entries);
      }
    }

    method Renew(key: string, value: T, expires: int)
      requires Valid() && key in entries
      modifies this
      ensures Valid() && View() == [L.Entry(key, value, expires)] + L.Without(old(View()), key)
    {
      ghost var was, t := entries, Times(expiry, entries);
      UnlinkedHasNoneTwice(order, key);
      UnlinkedListing(order, entries, key);
      entries := entries[key := entries[key].(value := value, expires := expires)];
      order := [key] + Unlinked(order, key);
      assert order[1..] == Unlinked(old(order), key);
      SameListing(order[1..], was, entries);
      ghost var renewed := entries;
      Fix(entries[key].index, t);
      SameListing(order, renewed, entries);
    }

    method Insert(key: string, value: T, expires: int)
      requires Valid() && key !in entries && |order| < capacity
      modifies this
      ensures Valid() && View() == [L.Entry(key, value, expires)] + old(View())
    {
      ghost var was := entries;
      order := [key] + order;
      assert order[1..] == old(order);
      entries := entries[key := Item(value, expires, -1)];
      SameListing(order[1..], was, entries);
      ghost var added := entries;
      assert Times(expiry, entries) == Times(expiry, was);
      Push(key);
      SameListing(order, added, entries);
    }
  }
}
