/**
 The order of a binary heap of deadlines, with one entry out of place: what the
 sift loops of an indexed heap keep.
 */
module ExpiryHeap {
  function Parent(k: nat): nat
    requires k > 0
  {
    (k - 1) / 2
  }

  /** Entry `k` is not before its parent. */
  ghost predicate Ok(t: seq<int>, k: nat) {
    0 < k < |t| ==> t[Parent(k)] <= t[k]
  }

  ghost predicate IsHeap(t: seq<int>, n: nat) {
    forall k: nat {:trigger Ok(t, k)} :: k < n ==> Ok(t, k)
  }

  /** The entries below `i` are not before the parent of `i`. */
  ghost predicate Bridged(t: seq<int>, i: nat, k: nat) {
    0 < i && 0 < k < |t| && Parent(k) == i ==> t[Parent(i)] <= t[k]
  }

  /** Everything is in order but entry `i`, which may be before its parent (`high`) or after its children (`low`). */
  ghost predicate AllBut(t: seq<int>, n: nat, i: nat, high: bool, low: bool) {
    && n <= |t|
    && (forall k: nat {:trigger Ok(t, k)} :: k < n && !(low && k > 0 && Parent(k) == i) && !(high && k == i) ==> Ok(t, k))
    && (forall k: nat {:trigger Bridged(t, i, k)} :: k < n ==> Bridged(t, i, k))
  }

  function Swapped(t: seq<int>, i: nat, j: nat): seq<int>
    requires i < |t| && j < |t|
  {
    t[i := t[j]][j := t[i]]
  }

  /** The first entry of a heap is the earliest. */
  lemma {:induction false} RootIsEarliest(t: seq<int>, k: nat)
    requires IsHeap(t, |t|) && k < |t|
    ensures t[0] <= t[k]
    decreases k
  {
    if k > 0 {
      assert Ok(t, k);
      RootIsEarliest(t, Parent(k));
    }
  }

  /** Replacing entry `i` leaves everything else in order. */
  lemma ReplacedIsAllBut(t: seq<int>, u: seq<int>, n: nat, i: nat)
    requires IsHeap(t, n) && n <= |u| && n <= |t| && i < n
    requires forall k :: 0 <= k < n && k != i ==> u[k] == t[k]
    ensures AllBut(u, n, i, true, true)
  {
    forall k: nat | k < n && !(k > 0 && Parent(k) == i) && k != i ensures Ok(u, k) {
      assert Ok(t, k);
    }
    forall k: nat | k < n ensures Bridged(u, i, k) {
      assert Ok(t, k) && Ok(t, i);
    }
  }

  /** One step of `down`: entry `i` changes places with `j`, its earlier child. */
  lemma DownStep(t: seq<int>, n: nat, i: nat, j: nat, high: bool)
    requires AllBut(t, n, i, high, true) && i < j < n && Parent(j) == i && t[j] < t[i]
    requires forall k: nat :: 0 < k < n && Parent(k) == i ==> t[j] <= t[k]
    ensures AllBut(Swapped(t, i, j), n, j, false, true)
  {
    var u := Swapped(t, i, j);
    forall k: nat | k < n && !(k > 0 && Parent(k) == j) ensures Ok(u, k) {
      assert Bridged(t, i, j);
      assert k > 0 && k != i && Parent(k) != i ==> Ok(t, k);
    }
    forall k: nat | k < n ensures Bridged(u, j, k) {
      assert k > 0 && Parent(k) == j ==> Ok(t, k);
    }
  }

  /** `down` stops where no child is earlier. */
  lemma DownStops(t: seq<int>, n: nat, i: nat, high: bool)
    requires AllBut(t, n, i, high, true)
    requires forall k: nat :: 0 < k < n && Parent(k) == i ==> t[i] <= t[k]
    ensures AllBut(t, n, i, high, false)
    ensures !high ==> IsHeap(t, n)
  {
    forall k: nat | k < n && !(high && k == i) ensures Ok(t, k) {
    }
  }

  /** One step of `up`: entry `j` changes places with its later parent. */
  lemma UpStep(t: seq<int>, n: nat, j: nat)
    requires AllBut(t, n, j, true, false) && 0 < j < n && t[j] < t[Parent(j)]
    ensures AllBut(Swapped(t, Parent(j), j), n, Parent(j), true, false)
  {
    var i := Parent(j);
    var u := Swapped(t, i, j);
    forall k: nat | k < n && k != i ensures Ok(u, k) {
      assert Bridged(t, j, k);
      assert k != j ==> Ok(t, k);
    }
    forall k: nat | k < n ensures Bridged(u, i, k) {
      assert Ok(t, i);
      assert k != j ==> Ok(t, k);
    }
  }

  /** `up` stops where the parent is not later. */
  lemma UpStops(t: seq<int>, n: nat, j: nat)
    requires AllBut(t, n, j, true, false) && (j > 0 && j < |t| ==> t[Parent(j)] <= t[j])
    ensures IsHeap(t, n)
  {
    forall k: nat | k < n ensures Ok(t, k) {
    }
  }

  /** A new last entry may only be before its parent. */
  lemma PushedIsAllBut(t: seq<int>, u: seq<int>)
    requires IsHeap(t, |t|) && |u| == |t| + 1 && u[..|t|] == t
    ensures AllBut(u, |u|, |t|, true, false)
  {
    forall k: nat | k < |u| && k != |t| ensures Ok(u, k) {
      assert Ok(t, k);
    }
  }

  /** A shorter heap is one. */
  lemma PrefixIsHeap(t: seq<int>, n: nat)
    requires n <= |t| && IsHeap(t, n)
    ensures IsHeap(t[..n], n)
  {
    forall k: nat | k < n ensures Ok(t[..n], k) {
      assert Ok(t, k);
    }
  }
}
