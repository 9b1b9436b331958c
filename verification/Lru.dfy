/**
 A bounded map with deadlines that forgets what was used longest ago: the
 behaviour a cache is measured against, and what it guarantees over runs.
 */
module Lru {
  import opened Common

  datatype Entry<T> = Entry(key: string, value: T, expires: int)

  /** Entries, the most recently used first. */
  type Lru<T> = seq<Entry<T>>

  function Find<T>(s: Lru<T>, key: string): (e: Option<Entry<T>>)
    ensures e.Some? ==> e.value in s && e.value.key == key
    ensures e.None? ==> forall x <- s :: x.key != key
  {
    if s == [] then None else if s[0].key == key then Some(s[0]) else Find(s[1..], key)
  }

  function Without<T>(s: Lru<T>, key: string): (r: Lru<T>)
    ensures (forall x <- r :: x in s && x.key != key) && forall x <- s :: x.key != key ==> x in r
    ensures |r| <= |s|
  {
    if s == [] then [] else (if s[0].key == key then [] else [s[0]]) + Without(s[1..], key)
  }

  function Live<T>(s: Lru<T>, now: int): (r: Lru<T>)
    ensures (forall x <- r :: x in s && now < x.expires) && forall x <- s :: now < x.expires ==> x in r
    ensures |r| <= |s|
  {
    if s == [] then [] else (if now < s[0].expires then [s[0]] else []) + Live(s[1..], now)
  }

  function Get<T>(s: Lru<T>, key: string, now: int): (Lru<T>, Option<T>) {
    match Find(s, key)
    case None => (s, None)
    case Some(e) => if e.expires <= now then (Without(s, key), None) else ([e] + Without(s, key), Some(e.value))
  }

  function Set<T>(s: Lru<T>, capacity: nat, key: string, value: T, expires: int, now: int): Lru<T>
    requires capacity > 0
  {
    var l := Live(s, now);
    if expires <= now then Without(l, key)
    else if Find(l, key).Some? then [Entry(key, value, expires)] + Without(l, key)
    else [Entry(key, value, expires)] + if |l| >= capacity then l[..|l| - 1] else l
  }

  // ----- What is kept ---------------------------------------------------------------------

  ghost predicate Distinct<T>(s: Lru<T>) {
    forall i, j :: 0 <= i < j < |s| ==> s[i].key != s[j].key
  }

  ghost predicate Bounded<T>(s: Lru<T>, capacity: nat) {
    Distinct(s) && |s| <= capacity
  }

  lemma DistinctTail<T>(s: Lru<T>)
    requires Distinct(s) && s != []
    ensures Distinct(s[1..]) && forall x <- s[1..] :: x.key != s[0].key
  {
    forall x <- s[1..] ensures x.key != s[0].key {
      var i :| 0 <= i < |s[1..]| && s[1..][i] == x;
      assert s[0].key != s[i + 1].key;
    }
  }

  lemma DistinctFront<T>(x: Entry<T>, s: Lru<T>)
    requires Distinct(s) && forall y <- s :: y.key != x.key
    ensures Distinct([x] + s)
  {
  }

  lemma {:induction false} WithoutIsDistinct<T>(s: Lru<T>, key: string)
    requires Distinct(s)
    ensures Distinct(Without(s, key))
    ensures Find(s, key).Some? ==> |Without(s, key)| == |s| - 1
    ensures Find(s, key).None? ==> Without(s, key) == s
  {
    if s != [] {
      DistinctTail(s);
      WithoutIsDistinct(s[1..], key);
      if s[0].key != key {
        DistinctFront(s[0], Without(s[1..], key));
      } else {
        assert Find(s[1..], key).None?;
        assert Without(s, key) == Without(s[1..], key);
      }
    }
  }

  lemma {:induction false} LiveIsDistinct<T>(s: Lru<T>, now: int)
    requires Distinct(s)
    ensures Distinct(Live(s, now))
  {
    if s != [] {
      DistinctTail(s);
      LiveIsDistinct(s[1..], now);
      if now < s[0].expires {
        DistinctFront(s[0], Live(s[1..], now));
      } else {
        assert Live(s, now) == Live(s[1..], now);
      }
    }
  }

  lemma GetKeepsBounded<T>(s: Lru<T>, capacity: nat, key: string, now: int)
    requires Bounded(s, capacity)
    ensures Bounded(Get(s, key, now).0, capacity)
  {
    WithoutIsDistinct(s, key);
    forall x <- Without(s, key) ensures x.key != key {
    }
  }

  lemma PrefixIsDistinct<T>(s: Lru<T>, n: nat)
    requires Distinct(s) && n <= |s|
    ensures Distinct(s[..n]) && forall x <- s[..n] :: x in s
  {
  }

  /** The list to which a set adds its entry at the front. */
  function Kept<T>(l: Lru<T>, capacity: nat, key: string): Lru<T>
    requires capacity > 0
  {
    if Find(l, key).Some? then Without(l, key) else if |l| >= capacity then l[..|l| - 1] else l
  }

  lemma KeptHasRoom<T>(l: Lru<T>, capacity: nat, key: string)
    requires Bounded(l, capacity) && capacity > 0
    ensures Distinct(Kept(l, capacity, key)) && |Kept(l, capacity, key)| < capacity
    ensures forall x <- Kept(l, capacity, key) :: x.key != key
  {
    WithoutIsDistinct(l, key);
    if Find(l, key).None? && |l| >= capacity {
      PrefixIsDistinct(l, |l| - 1);
    }
  }

  lemma SetIsKept<T>(s: Lru<T>, capacity: nat, key: string, value: T, expires: int, now: int)
    requires capacity > 0
    ensures Set(s, capacity, key, value, expires, now) ==
            if expires <= now then Without(Live(s, now), key) else [Entry(key, value, expires)] + Kept(Live(s, now), capacity, key)
  {
  }

  lemma SetKeepsBounded<T>(s: Lru<T>, capacity: nat, key: string, value: T, expires: int, now: int)
    requires Bounded(s, capacity) && capacity > 0
    ensures Bounded(Set(s, capacity, key, value, expires, now), capacity)
  {
    var l := Live(s, now);
    LiveIsDistinct(s, now);
    WithoutIsDistinct(l, key);
    KeptHasRoom(l, capacity, key);
    SetIsKept(s, capacity, key, value, expires, now);
    DistinctFront(Entry(key, value, expires), Kept(l, capacity, key));
  }

  /** A live entry is found exactly while it is there, with its own value. */
  lemma GetIsExact<T>(s: Lru<T>, key: string, now: int)
    requires Distinct(s)
    ensures forall v :: Get(s, key, now).1 == Some(v) <==> exists e :: e in s && e.key == key && e.value == v && now < e.expires
  {
    forall e <- s | e.key == key ensures Find(s, key) == Some(e) {
      FindIsUnique(s, key, e);
    }
  }

  lemma {:induction false} FindIsUnique<T>(s: Lru<T>, key: string, e: Entry<T>)
    requires Distinct(s) && e in s && e.key == key
    ensures Find(s, key) == Some(e)
  {
    if s[0].key == key {
      var i :| 0 <= i < |s| && s[i] == e;
      assert i == 0;
    } else {
      FindIsUnique(s[1..], key, e);
    }
  }

  // ----- Evictions ---------------------------------------------------------------------------

  /**
   Setting one key loses another live entry only if the cache is full of live
   entries and that one was used longest ago.
   */
  lemma EvictsOnlyTheOldest<T>(s: Lru<T>, capacity: nat, key: string, value: T, expires: int, now: int, e: Entry<T>)
    requires Bounded(s, capacity) && capacity > 0 && e in s && now < e.expires && e.key != key
    ensures e !in Set(s, capacity, key, value, expires, now) <==>
            now < expires && Find(Live(s, now), key).None? && |Live(s, now)| == capacity && e == Live(s, now)[capacity - 1]
  {
    var l := Live(s, now);
    LiveIsDistinct(s, now);
    assert e in l && e in Without(l, key);
    SetIsKept(s, capacity, key, value, expires, now);
    KeptLosesOnlyLast(l, capacity, key, e);
    var x := Entry(key, value, expires);
    assert e in [x] + Kept(l, capacity, key) <==> e in Kept(l, capacity, key);
  }

  lemma KeptLosesOnlyLast<T>(l: Lru<T>, capacity: nat, key: string, e: Entry<T>)
    requires Bounded(l, capacity) && capacity > 0 && e in l && e.key != key
    ensures e !in Kept(l, capacity, key) <==> Find(l, key).None? && |l| == capacity && e == l[capacity - 1]
  {
    if Find(l, key).None? && |l| == capacity {
      LastIsApart(l);
      assert l == l[..capacity - 1] + [l[capacity - 1]];
    }
  }

  lemma LastIsApart<T>(s: Lru<T>)
    requires Distinct(s) && s != []
    ensures s[|s| - 1] !in s[..|s| - 1]
  {
  }

  // ----- Runs ------------------------------------------------------------------------------------

  /** A call with the time at which it runs. */
  datatype Call<T> =
    | Got(now: int, key: string)
    | Put(now: int, key: string, value: T, expires: int)
    | Deleted(now: int, key: string)

  function Called<T>(s: Lru<T>, capacity: nat, c: Call<T>): Lru<T>
    requires capacity > 0
  {
    match c
    case Got(now, key) => Get(s, key, now).0
    case Put(now, key, value, expires) => Set(s, capacity, key, value, expires, now)
    case Deleted(_, key) => Without(s, key)
  }

  function Run<T>(s: Lru<T>, capacity: nat, calls: seq<Call<T>>): Lru<T>
    requires capacity > 0
    decreases |calls|
  {
    if calls == [] then s else Run(Called(s, capacity, calls[0]), capacity, calls[1..])
  }

  /** The keys used by calls. */
  function Used<T>(calls: seq<Call<T>>): set<string> {
    if calls == [] then {} else {calls[0].key} + Used(calls[1..])
  }

  /** `e` is in `s` with only keys of `ahead` used more recently. */
  ghost predicate Behind<T>(s: Lru<T>, e: Entry<T>, ahead: set<string>) {
    exists i :: 0 <= i < |s| && s[i] == e && forall j :: 0 <= j < i ==> s[j].key in ahead
  }

  lemma {:induction false} WithoutKeepsBehind<T>(s: Lru<T>, key: string, e: Entry<T>, ahead: set<string>)
    requires Behind(s, e, ahead) && key != e.key
    ensures Behind(Without(s, key), e, ahead)
  {
    var i :| 0 <= i < |s| && s[i] == e && forall j :: 0 <= j < i ==> s[j].key in ahead;
    if i > 0 {
      assert s[1..][i - 1] == e && forall j :: 0 <= j < i - 1 ==> s[1..][j].key in ahead;
      WithoutKeepsBehind(s[1..], key, e, ahead);
      FrontKeepsBehind(s[0], Without(s[1..], key), e, ahead);
      assert ahead + {s[0].key} == ahead;
      assert s[0].key == key ==> Without(s, key) == Without(s[1..], key);
    } else {
      assert Without(s, key)[0] == e;
    }
  }

  lemma {:induction false} LiveKeepsBehind<T>(s: Lru<T>, now: int, e: Entry<T>, ahead: set<string>)
    requires Behind(s, e, ahead) && now < e.expires
    ensures Behind(Live(s, now), e, ahead)
  {
    var i :| 0 <= i < |s| && s[i] == e && forall j :: 0 <= j < i ==> s[j].key in ahead;
    if i > 0 {
      assert s[1..][i - 1] == e && forall j :: 0 <= j < i - 1 ==> s[1..][j].key in ahead;
      LiveKeepsBehind(s[1..], now, e, ahead);
      FrontKeepsBehind(s[0], Live(s[1..], now), e, ahead);
      assert ahead + {s[0].key} == ahead;
      assert now >= s[0].expires ==> Live(s, now) == Live(s[1..], now);
    } else {
      assert Live(s, now)[0] == e;
    }
  }

  lemma FrontKeepsBehind<T>(x: Entry<T>, s: Lru<T>, e: Entry<T>, ahead: set<string>)
    requires Behind(s, e, ahead)
    ensures Behind([x] + s, e, ahead + {x.key})
  {
    var i :| 0 <= i < |s| && s[i] == e && forall j :: 0 <= j < i ==> s[j].key in ahead;
    assert ([x] + s)[i + 1] == e;
  }

  /** Distinct keys from a set are no more than the set has. */
  lemma {:induction false} KeysFit<T>(s: Lru<T>, n: nat, keys: set<string>)
    requires Distinct(s) && n <= |s| && forall j :: 0 <= j < n ==> s[j].key in keys
    ensures n <= |keys|
    decreases n
  {
    if n > 0 {
      KeysFit(s, n - 1, keys - {s[n - 1].key});
    }
  }

  lemma LastStaysBehind<T>(s: Lru<T>, e: Entry<T>, ahead: set<string>)
    requires Distinct(s) && Behind(s, e, ahead) && |ahead| + 1 < |s|
    ensures Behind(s[..|s| - 1], e, ahead)
  {
    var i :| 0 <= i < |s| && s[i] == e && forall j :: 0 <= j < i ==> s[j].key in ahead;
    KeysFit(s, i, ahead);
    assert s[..|s| - 1][i] == e;
  }

  lemma CallKeepsBehind<T>(s: Lru<T>, capacity: nat, c: Call<T>, e: Entry<T>, ahead: set<string>)
    requires Bounded(s, capacity) && Behind(s, e, ahead) && c.key != e.key && c.now < e.expires
    requires |ahead + {c.key}| < capacity
    ensures Bounded(Called(s, capacity, c), capacity)
    ensures Behind(Called(s, capacity, c), e, ahead + {c.key})
  {
    match c
    case Got(now, key) =>
      GetKeepsBounded(s, capacity, key, now);
      GetKeepsBehind(s, key, now, e, ahead);
    case Put(now, key, value, expires) =>
      SetKeepsBounded(s, capacity, key, value, expires, now);
      SetKeepsBehind(s, capacity, key, value, expires, now, e, ahead);
    case Deleted(_, key) =>
      WithoutIsDistinct(s, key);
      WithoutKeepsBehind(s, key, e, ahead);
      MoreBehind(Without(s, key), e, ahead, ahead + {key});
  }

  lemma MoreBehind<T>(s: Lru<T>, e: Entry<T>, ahead: set<string>, more: set<string>)
    requires Behind(s, e, ahead) && ahead <= more
    ensures Behind(s, e, more)
  {
  }

  lemma GetKeepsBehind<T>(s: Lru<T>, key: string, now: int, e: Entry<T>, ahead: set<string>)
    requires Distinct(s) && Behind(s, e, ahead) && key != e.key
    ensures Behind(Get(s, key, now).0, e, ahead + {key})
  {
    WithoutKeepsBehind(s, key, e, ahead);
    MoreBehind(s, e, ahead, ahead + {key});
    MoreBehind(Without(s, key), e, ahead, ahead + {key});
    var f := Find(s, key);
    if f.Some? {
      FrontKeepsBehind(f.value, Without(s, key), e, ahead);
    }
  }

  lemma SetKeepsBehind<T>(s: Lru<T>, capacity: nat, key: string, value: T, expires: int, now: int, e: Entry<T>, ahead: set<string>)
    requires Bounded(s, capacity) && Behind(s, e, ahead) && key != e.key && now < e.expires
    requires |ahead + {key}| < capacity
    ensures Behind(Set(s, capacity, key, value, expires, now), e, ahead + {key})
  {
    var l := Live(s, now);
    LiveIsDistinct(s, now);
    LiveKeepsBehind(s, now, e, ahead);
    SetIsKept(s, capacity, key, value, expires, now);
    if expires <= now {
      WithoutKeepsBehind(l, key, e, ahead);
      MoreBehind(Without(l, key), e, ahead, ahead + {key});
    } else {
      KeptKeepsBehind(l, capacity, key, e, ahead);
      FrontKeepsBehind(Entry(key, value, expires), Kept(l, capacity, key), e, ahead);
    }
  }

  lemma KeptKeepsBehind<T>(l: Lru<T>, capacity: nat, key: string, e: Entry<T>, ahead: set<string>)
    requires Distinct(l) && Behind(l, e, ahead) && key != e.key && |ahead + {key}| < capacity && |l| <= capacity
    ensures Behind(Kept(l, capacity, key), e, ahead)
  {
    if Find(l, key).Some? {
      WithoutKeepsBehind(l, key, e, ahead);
    } else if |l| >= capacity {
      NewKeyIsNotAhead(l, key, e, ahead);
      LastStaysBehind(l, e, ahead - {key});
      MoreBehind(l[..|l| - 1], e, ahead - {key}, ahead);
    }
  }

  /** A key that is not in the cache is not ahead of anything. */
  lemma NewKeyIsNotAhead<T>(s: Lru<T>, key: string, e: Entry<T>, ahead: set<string>)
    requires Behind(s, e, ahead) && Find(s, key).None?
    ensures Behind(s, e, ahead - {key})
    ensures |ahead - {key}| + 1 == |ahead + {key}|
  {
    assert ahead + {key} == ahead - {key} + {key};
    var i :| 0 <= i < |s| && s[i] == e && forall j :: 0 <= j < i ==> s[j].key in ahead;
    forall j | 0 <= j < i ensures s[j].key in ahead - {key} {
      assert s[j] in s;
    }
  }

  /** The calls leave `e` alone: they use other keys, before its deadline. */
  ghost predicate Spares<T>(calls: seq<Call<T>>, e: Entry<T>) {
    forall i :: 0 <= i < |calls| ==> calls[i].key != e.key && calls[i].now < e.expires
  }

  lemma {:induction false} RunKeepsBehind<T>(s: Lru<T>, capacity: nat, calls: seq<Call<T>>, e: Entry<T>, ahead: set<string>)
    requires capacity > 0 && Bounded(s, capacity) && Behind(s, e, ahead) && Spares(calls, e)
    requires |ahead + Used(calls)| < capacity
    ensures e in Run(s, capacity, calls) && Bounded(Run(s, capacity, calls), capacity)
    decreases |calls|
  {
    if calls != [] {
      var more := ahead + {calls[0].key};
      assert more + Used(calls[1..]) == ahead + Used(calls);
      SubsetIsSmaller(more, ahead + Used(calls));
      CallKeepsBehind(s, capacity, calls[0], e, ahead);
      forall i | 0 <= i < |calls[1..]| ensures calls[1..][i].key != e.key && calls[1..][i].now < e.expires {
        assert calls[1..][i] == calls[i + 1];
      }
      RunKeepsBehind(Called(s, capacity, calls[0]), capacity, calls[1..], e, more);
    }
  }

  lemma {:induction false} SubsetIsSmaller(a: set<string>, b: set<string>)
    requires a <= b
    ensures |a| <= |b|
    decreases |a|
  {
    if a != {} {
      var x :| x in a;
      SubsetIsSmaller(a - {x}, b - {x});
    }
  }

  /**
   What was just set is found again, before its deadline, after any calls on fewer
   than `capacity` other keys, whatever they are and in whatever order.
   */
  lemma RecentlySetIsFound<T>(s: Lru<T>, capacity: nat, key: string, value: T, expires: int, now: int, calls: seq<Call<T>>, later: int)
    requires capacity > 0 && Bounded(s, capacity) && now < expires && later < expires
    requires Spares(calls, Entry(key, value, expires)) && |Used(calls)| < capacity
    ensures Get(Run(Set(s, capacity, key, value, expires, now), capacity, calls), key, later).1 == Some(value)
  {
    var e := Entry(key, value, expires);
    var t := Set(s, capacity, key, value, expires, now);
    SetKeepsBounded(s, capacity, key, value, expires, now);
    assert t[0] == e;
    assert {} + Used(calls) == Used(calls);
    RunKeepsBehind(t, capacity, calls, e, {});
    FindIsUnique(Run(t, capacity, calls), key, e);
  }

  /** A get that finds an entry makes it the most recently used, and changes nothing else. */
  lemma GetMovesToFront<T>(s: Lru<T>, key: string, now: int, e: Entry<T>)
    requires Distinct(s) && e in s && e.key == key && now < e.expires
    ensures Get(s, key, now) == ([e] + Without(s, key), Some(e.value))
  {
    FindIsUnique(s, key, e);
  }

  /** What was just found is found again, before its deadline, after any calls on fewer than `capacity` other keys. */
  lemma RecentlyFoundIsFound<T>(s: Lru<T>, capacity: nat, e: Entry<T>, now: int, calls: seq<Call<T>>, later: int)
    requires capacity > 0 && Bounded(s, capacity) && e in s && now < e.expires && later < e.expires
    requires Spares(calls, e) && |Used(calls)| < capacity
    ensures Get(Run(Get(s, e.key, now).0, capacity, calls), e.key, later).1 == Some(e.value)
  {
    var t := Get(s, e.key, now).0;
    GetMovesToFront(s, e.key, now, e);
    GetKeepsBounded(s, capacity, e.key, now);
    assert t[0] == e;
    assert {} + Used(calls) == Used(calls);
    RunKeepsBehind(t, capacity, calls, e, {});
    FindIsUnique(Run(t, capacity, calls), e.key, e);
  }
}
