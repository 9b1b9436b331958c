/**
 Which Instagram account serves a request: the least loaded usable one among the
 oldest few that are alive, scanned in rotation.
 */
module Scheduler {
  import opened Common

  datatype Account = Account(id: nat, disabled: bool, cooldown: int, updating: bool, busy: nat, mediaBusy: nat)

  // ----- The active window ---------------------------------------------------------------

  function Alive(accounts: seq<Account>): nat {
    if accounts == [] then 0 else Alive(accounts[..|accounts| - 1]) + if accounts[|accounts| - 1].disabled then 0 else 1
  }

  /** The oldest accounts up to the last of the first `active` that are alive; all if there is no limit or too few. */
  ghost predicate Window(accounts: seq<Account>, active: nat, end: nat) {
    && end <= |accounts|
    && (if active > 0 && Alive(accounts) >= active
        then end > 0 && Alive(accounts[..end]) == active && !accounts[end - 1].disabled
        else end == |accounts|)
  }

  lemma {:induction false} AliveGrows(accounts: seq<Account>, i: nat, j: nat)
    requires i <= j <= |accounts|
    ensures Alive(accounts[..i]) <= Alive(accounts[..j])
    decreases j - i
  {
    if i < j {
      AliveGrows(accounts, i, j - 1);
      assert accounts[..j][..j - 1] == accounts[..j - 1];
    }
  }

  /** The window is one stretch: exactly `active` accounts in it are alive, and it cannot be shorter. */
  lemma WindowIsUnique(accounts: seq<Account>, active: nat, end: nat, other: nat)
    requires Window(accounts, active, end) && Window(accounts, active, other)
    ensures end == other
  {
    var lo, hi := if end < other then end else other, if end < other then other else end;
    if lo < hi && active > 0 && Alive(accounts) >= active {
      assert accounts[..hi][..hi - 1] == accounts[..hi - 1];
      AliveGrows(accounts, lo, hi - 1);
    }
  }

  /** Where the window ends, and it ends nowhere else. */
  method ActiveWindow(accounts: seq<Account>, active: nat) returns (end: nat)
    ensures Window(accounts, active, end) && forall other: nat :: Window(accounts, active, other) ==> other == end
  {
    end := CountWindow(accounts, active);
    forall other: nat | Window(accounts, active, other) ensures other == end {
      WindowIsUnique(accounts, active, end, other);
    }
  }

  method CountWindow(accounts: seq<Account>, active: nat) returns (end: nat)
    ensures Window(accounts, active, end)
  {
    assert accounts[..|accounts|] == accounts;
    if active > 0 {
      var count := 0;
      for i := 0 to |accounts|
        invariant count == Alive(accounts[..i]) < active
      {
        assert accounts[..i + 1][..i] == accounts[..i];
        if !accounts[i].disabled {
          count := count + 1;
          if count == active {
            AliveGrows(accounts, i + 1, |accounts|);
            return i + 1;
          }
        }
      }
    }
    return |accounts|;
  }

  // ----- The rotated scan ------------------------------------------------------------------

  /** How far after `next` the scan meets index `i`. */
  function Offset(next: nat, end: nat, i: nat): (n: nat)
    requires i < end
    ensures n < end && (next + n) % end == i
  {
    OffsetReaches(next, end, i);
    (i + end - next % end) % end
  }

  lemma OffsetReaches(next: nat, end: nat, i: nat)
    requires i < end
    ensures (next + (i + end - next % end) % end) % end == i
  {
    var r, q := next % end, next / end;
    assert next == q * end + r;
    if r <= i {
      SmallRemainder(i - r, 1, end);
      assert next + (i - r) == q * end + i;
      SmallRemainder(i, q, end);
    } else {
      SmallRemainder(i + end - r, 0, end);
      assert next + (i + end - r) == (q + 1) * end + i;
      SmallRemainder(i, q + 1, end);
    }
  }

  lemma SmallRemainder(r: nat, q: nat, d: nat)
    requires r < d
    ensures (q * d + r) % d == r && (r + q * d) % d == r
  {
    var x := q * d + r;
    assert x == (x / d) * d + x % d;
    if x / d < q {
      Multiples(x / d + 1, q, d);
    } else if x / d > q {
      Multiples(q + 1, x / d, d);
    }
  }

  lemma Multiples(a: nat, b: nat, d: nat)
    requires a <= b
    ensures a * d <= b * d
  {
  }

  /** The scan meets every index of the window at one offset and no other. */
  lemma ScanCoversOnce(next: nat, end: nat, i: nat, n: nat)
    requires i < end && n < end
    ensures (next + n) % end == i <==> n == Offset(next, end, i)
  {
    var m := Offset(next, end, i);
    if (next + n) % end == i && n != m {
      var lo, hi := if n < m then n else m, if n < m then m else n;
      var a, b := (next + lo) / end, (next + hi) / end;
      assert next + lo == a * end + i && next + hi == b * end + i;
      assert (b - a) * end == hi - lo;
      if b >= a + 1 {
        Multiples(1, b - a, end);
      }
    }
  }

  // ----- The choice ----------------------------------------------------------------------------

  /** Could serve some time soon: alive, not resting, not already tried. */
  predicate Available(a: Account, now: int, avoid: set<nat>) {
    !a.disabled && a.cooldown <= now && a.id !in avoid
  }

  predicate Usable(a: Account, now: int, avoid: set<nat>, limit: nat) {
    Available(a, now, avoid) && !a.updating && a.busy < limit
  }

  predicate Lighter(a: Account, b: Account) {
    a.busy < b.busy || (a.busy == b.busy && a.mediaBusy < b.mediaBusy)
  }

  /** `chosen` has the least load of the usable accounts in the window, and comes first in rotation among its equals. */
  ghost predicate Chosen(accounts: seq<Account>, end: nat, next: nat, now: int, avoid: set<nat>, limit: nat, chosen: nat) {
    && chosen < end <= |accounts| && Usable(accounts[chosen], now, avoid, limit)
    && forall i :: 0 <= i < end && i != chosen && Usable(accounts[i], now, avoid, limit) ==>
         !Lighter(accounts[i], accounts[chosen])
         && (Offset(next, end, i) < Offset(next, end, chosen) ==> Lighter(accounts[chosen], accounts[i]))
  }

  /** The best of the first `n` indexes scanned. */
  ghost predicate BestOf(accounts: seq<Account>, end: nat, next: nat, now: int, avoid: set<nat>, limit: nat, n: nat, best: Option<nat>) {
    && end <= |accounts|
    && (best.Some? ==> best.value < end && Usable(accounts[best.value], now, avoid, limit) && Offset(next, end, best.value) < n)
    && forall i :: 0 <= i < end && Offset(next, end, i) < n && Usable(accounts[i], now, avoid, limit) ==>
         best.Some? && (i == best.value || (!Lighter(accounts[i], accounts[best.value])
         && (Offset(next, end, i) < Offset(next, end, best.value) ==> Lighter(accounts[best.value], accounts[i]))))
  }

  lemma ScanStep(accounts: seq<Account>, end: nat, next: nat, now: int, avoid: set<nat>, limit: nat, n: nat, best: Option<nat>, i: nat, best': Option<nat>)
    requires BestOf(accounts, end, next, now, avoid, limit, n, best) && i < end && Offset(next, end, i) == n
    requires best' == if Usable(accounts[i], now, avoid, limit) && (best.None? || Lighter(accounts[i], accounts[best.value])) then Some(i) else best
    ensures BestOf(accounts, end, next, now, avoid, limit, n + 1, best')
  {
    forall j | 0 <= j < end && Offset(next, end, j) == n ensures j == i {
      assert (next + n) % end == j && (next + n) % end == i;
    }
  }

  /** The best of the whole window, or of what was scanned when nothing can be lighter, is the choice. */
  lemma ChosenIsBest(accounts: seq<Account>, end: nat, next: nat, now: int, avoid: set<nat>, limit: nat, n: nat, i: nat)
    requires BestOf(accounts, end, next, now, avoid, limit, n, Some(i))
    requires n >= end || (accounts[i].busy == 0 && accounts[i].mediaBusy == 0)
    ensures Chosen(accounts, end, next, now, avoid, limit, i)
  {
  }

  /** Scans the window from `next` on; it stops early at an account with no load. */
  method Scan(accounts: seq<Account>, end: nat, next: nat, now: int, avoid: set<nat>, limit: nat)
    returns (chosen: Option<nat>, available: bool)
    requires end <= |accounts|
    ensures chosen.Some? ==> Chosen(accounts, end, next, now, avoid, limit, chosen.value)
    ensures chosen.None? ==> forall i :: 0 <= i < end ==> !Usable(accounts[i], now, avoid, limit)
    ensures available <==> exists i :: 0 <= i < end && Available(accounts[i], now, avoid)
  {
    chosen, available := None, false;
    var n := 0;
    while n < end
      invariant n <= end && BestOf(accounts, end, next, now, avoid, limit, n, chosen)
      invariant available ==> exists i :: 0 <= i < end && Available(accounts[i], now, avoid)
      invariant chosen.Some? ==> available
      invariant !available ==> forall i :: 0 <= i < end && Offset(next, end, i) < n ==> !Available(accounts[i], now, avoid)
    {
      var i := (next + n) % end;
      OnlyOffset(next, end, i, n);
      var a := accounts[i];
      ScanStep(accounts, end, next, now, avoid, limit, n, chosen, i,
               if Usable(a, now, avoid, limit) && (chosen.None? || Lighter(a, accounts[chosen.value])) then Some(i) else chosen);
      n := n + 1;
      if a.disabled || a.cooldown > now || a.id in avoid {
        continue;
      }
      available := true;
      if a.updating || a.busy >= limit {
        continue;
      }
      if chosen.None? || Lighter(a, accounts[chosen.value]) {
        chosen := Some(i);
        if a.busy == 0 && a.mediaBusy == 0 {
          // No account can have a smaller load.
          break;
        }
      }
    }
    if chosen.Some? {
      ChosenIsBest(accounts, end, next, now, avoid, limit, n, chosen.value);
    }
  }

  lemma OnlyOffset(next: nat, end: nat, i: nat, n: nat)
    requires n < end && i == (next + n) % end
    ensures i < end && Offset(next, end, i) == n
    ensures forall j :: 0 <= j < end && Offset(next, end, j) == n ==> j == i
  {
    ScanCoversOnce(next, end, i, n);
  }

  method Select(accounts: seq<Account>, active: nat, next: nat, now: int, avoid: set<nat>, limit: nat)
    returns (chosen: Option<nat>, available: bool, next': nat)
    requires accounts != []
    ensures exists end: nat :: Window(accounts, active, end)
    ensures forall end: nat :: Window(accounts, active, end) ==>
              && (chosen.Some? ==> Chosen(accounts, end, next, now, avoid, limit, chosen.value))
              && (chosen.None? ==> forall i :: 0 <= i < end ==> !Usable(accounts[i], now, avoid, limit))
              && (available <==> exists i :: 0 <= i < end && Available(accounts[i], now, avoid))
    ensures next' == if chosen.Some? then (chosen.value + 1) % |accounts| else next
  {
    var end := ActiveWindow(accounts, active);
    chosen, available := Scan(accounts, end, next, now, avoid, limit);
    next' := if chosen.Some? then (chosen.value + 1) % |accounts| else next;
  }

  /** Who is chosen: an account that is alive, does not rest, is not being updated, was not tried and has room; and if there is such an account in the window, one is chosen. */
  lemma ChosenIsFit(accounts: seq<Account>, end: nat, next: nat, now: int, avoid: set<nat>, limit: nat, i: nat)
    requires Chosen(accounts, end, next, now, avoid, limit, i)
    ensures var a := accounts[i];
            && i < end && !a.disabled && a.cooldown <= now && !a.updating && a.id !in avoid && a.busy < limit
            && forall j :: 0 <= j < end ==>
                 var b := accounts[j];
                 !b.disabled && b.cooldown <= now && !b.updating && b.id !in avoid && b.busy < limit ==>
                   a.busy < b.busy || (a.busy == b.busy && a.mediaBusy <= b.mediaBusy)
  {
  }

  // ----- Leases over a run -----------------------------------------------------------------

  /** A metadata lease, or a slot for a batch of downloads. */
  datatype Lease = Lease(i: nat, media: bool)

  datatype World = World(accounts: seq<Account>, leases: map<nat, Lease>)

  datatype Limits = Limits(active: nat, metadata: nat, media: nat)

  datatype Event =
    | Take(c: nat, i: nat, next: nat, now: int, avoid: set<nat>)
    | TakeMedia(c: nat, i: nat)
    | GiveBack(c: nat)
    | Health(i: nat, disabled: bool, cooldown: int, updating: bool)

  ghost predicate Enabled(w: World, l: Limits, e: Event) {
    match e
    case Take(c, i, next, now, avoid) =>
      c !in w.leases && exists end: nat :: Window(w.accounts, l.active, end) && Chosen(w.accounts, end, next, now, avoid, l.metadata, i)
    case TakeMedia(c, i) => c !in w.leases && i < |w.accounts| && w.accounts[i].mediaBusy < l.media
    case GiveBack(c) => c in w.leases && w.leases[c].i < |w.accounts|
    case Health(i, _, _, _) => i < |w.accounts|
  }

  /** One lease more on, or one fewer off, an account. */
  function Loaded(a: Account, media: bool, more: bool): Account {
    var n := if media then a.mediaBusy else a.busy;
    var m := if more then n + 1 else if n > 0 then n - 1 else 0;
    if media then a.(mediaBusy := m) else a.(busy := m)
  }

  ghost function Step(w: World, l: Limits, e: Event): World
    requires Enabled(w, l, e)
  {
    match e
    case Take(c, i, _, _, _) => World(w.accounts[i := Loaded(w.accounts[i], false, true)], w.leases[c := Lease(i, false)])
    case TakeMedia(c, i) => World(w.accounts[i := Loaded(w.accounts[i], true, true)], w.leases[c := Lease(i, true)])
    case GiveBack(c) =>
      var x := w.leases[c];
      World(w.accounts[x.i := Loaded(w.accounts[x.i], x.media, false)], map d | d in w.leases && d != c :: w.leases[d])
    case Health(i, disabled, cooldown, updating) =>
      w.(accounts := w.accounts[i := w.accounts[i].(disabled := disabled, cooldown := cooldown, updating := updating)])
  }

  ghost function On(m: map<nat, Lease>, x: Lease): set<nat> {
    set c | c in m && m[c] == x
  }

  /** An account's loads are its outstanding leases, within its limits. */
  ghost predicate LoadOk(w: World, l: Limits, i: nat) {
    i < |w.accounts| ==>
      && w.accounts[i].busy == |On(w.leases, Lease(i, false))| <= l.metadata
      && w.accounts[i].mediaBusy == |On(w.leases, Lease(i, true))| <= l.media
  }

  ghost predicate Inv(w: World, l: Limits) {
    && (forall i: nat {:trigger LoadOk(w, l, i)} :: LoadOk(w, l, i))
    && forall c <- w.leases :: w.leases[c].i < |w.accounts|
  }

  lemma TakenCounts(m: map<nat, Lease>, c: nat, x: Lease, y: Lease)
    requires c !in m
    ensures |On(m[c := x], y)| == |On(m, y)| + if x == y then 1 else 0
  {
    assert On(m[c := x], y) == if x == y then On(m, y) + {c} else On(m, y);
  }

  lemma GivenCounts(m: map<nat, Lease>, c: nat, y: Lease)
    requires c in m
    ensures var n := map d | d in m && d != c :: m[d];
            |On(n, y)| == |On(m, y)| - if m[c] == y then 1 else 0
  {
    var n := map d | d in m && d != c :: m[d];
    assert On(n, y) == On(m, y) - {c};
    if m[c] == y {
      assert c in On(m, y);
    } else {
      assert On(m, y) - {c} == On(m, y);
    }
  }

  lemma StepKeepsInv(w: World, l: Limits, e: Event)
    requires Inv(w, l) && Enabled(w, l, e)
    ensures Inv(Step(w, l, e), l)
  {
    var v := Step(w, l, e);
    forall i: nat ensures LoadOk(v, l, i) {
      assert LoadOk(w, l, i);
      match e
      case Take(c, x, _, _, _) =>
        TakenCounts(w.leases, c, Lease(x, false), Lease(i, false));
        TakenCounts(w.leases, c, Lease(x, false), Lease(i, true));
      case TakeMedia(c, x) =>
        TakenCounts(w.leases, c, Lease(x, true), Lease(i, false));
        TakenCounts(w.leases, c, Lease(x, true), Lease(i, true));
      case GiveBack(c) =>
        GivenCounts(w.leases, c, Lease(i, false));
        GivenCounts(w.leases, c, Lease(i, true));
      case Health(_, _, _, _) =>
    }
  }

  ghost predicate Possible(w: World, l: Limits, run: seq<Event>)
    decreases |run|
  {
    run != [] ==> Enabled(w, l, run[0]) && Possible(Step(w, l, run[0]), l, run[1..])
  }

  ghost function After(w: World, l: Limits, run: seq<Event>): World
    requires Possible(w, l, run)
    decreases |run|
  {
    if run == [] then w else After(Step(w, l, run[0]), l, run[1..])
  }

  /** Over every run an account's loads are exactly its outstanding leases, never past its limits. */
  lemma {:induction false} LoadsAreLeases(w: World, l: Limits, run: seq<Event>, i: nat)
    requires Inv(w, l) && Possible(w, l, run)
    ensures LoadOk(After(w, l, run), l, i)
    decreases |run|
  {
    if run == [] {
      assert LoadOk(w, l, i);
    } else {
      StepKeepsInv(w, l, run[0]);
      LoadsAreLeases(Step(w, l, run[0]), l, run[1..], i);
    }
  }
}
