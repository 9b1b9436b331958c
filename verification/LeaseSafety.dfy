/**
 What leasing guarantees over every run: one holder an identity, exact counts of
 who waits for what, a bounded queue, and use spread evenly.
 */
module LeaseSafety {
  import opened Common
  import opened Leases

  /** An operation; `reserved` if its identity counts it among those waiting. */
  datatype Caller = Trying(own: Option<Place>, reserved: bool) | Waiting(own: Option<Place>, reserved: bool) | Leaving(p: Place) | Holding(p: Place)

  datatype World = World(b: Books, callers: map<nat, Caller>)

  datatype Event =
    | Arrive(c: nat, own: Option<Place>)
    | TryAny(c: nat, now: int, best: Option<Place>)
    | TryOwn(c: nat, now: int)
    | TurnedAway(c: nat)                            // ended, or the pool is not available
    | Leave(c: nat)
    | Wake(c: nat)
    | Finish(c: nat, cooldown: int)
    | RouteRests(route: nat, cooldown: int)

  predicate Reserves(x: Caller, p: Place) {
    match x
    case Trying(own, reserved) => reserved && own == Some(p)
    case Waiting(own, reserved) => reserved && own == Some(p)
    case Leaving(q) => q == p
    case Holding(_) => false
  }

  ghost predicate Enabled(w: World, e: Event) {
    match e
    case Arrive(c, own) => c !in w.callers && (own.Some? ==> Filled(w.b.routes, own.value))
    case TryAny(c, now, best) =>
      && c in w.callers && w.callers[c].Trying? && w.callers[c].own.None?
      && (match best
          case Some(p) => Least(w.b.routes, now, p)
          case None => forall p :: !Candidate(w.b.routes, now, p))
    case TryOwn(c, now) => c in w.callers && w.callers[c].Trying? && w.callers[c].own.Some?
    case TurnedAway(c) => c in w.callers && w.callers[c].Trying?
    case Leave(c) => c in w.callers && w.callers[c].Leaving?
    case Wake(c) => c in w.callers && w.callers[c].Waiting?
    case Finish(c, _) => c in w.callers && w.callers[c].Holding?
    case RouteRests(route, _) => route < |w.b.routes|
  }

  function Gone(m: map<nat, Caller>, c: nat): map<nat, Caller> {
    map k | k in m && k != c :: m[k]
  }

  /** What becomes of an operation after a pass for an identity's own media. */
  function Next(p: Place, pass: (Books, Outcome, bool)): (Books, Option<Caller>) {
    (pass.0,
     match pass.1
     case Took(q) => Some(Holding(q))
     case Queued => Some(Waiting(Some(p), pass.2))
     case Refused(_) => if pass.2 then Some(Leaving(p)) else None)
  }

  /** The books an operation's pass begins with: it no longer counts itself as waiting. */
  function Begun(b: Books, x: Caller): Books
    requires x.Trying? && (x.reserved ==> x.own.Some? && Filled(b.routes, x.own.value))
  {
    if x.reserved then Unreserved(b, x.own.value, true) else b
  }

  function OwnStep(b: Books, x: Caller, now: int): (Books, Option<Caller>)
    requires x.Trying? && x.own.Some? && Filled(b.routes, x.own.value)
  {
    Next(x.own.value, OwnPass(Begun(b, x), x.own.value, now))
  }

  ghost function AnyPass(b: Books, now: int, best: Option<Place>): (Books, Option<Caller>)
    requires best.Some? ==> On(b.routes, best.value)
  {
    if best.Some? then (Taken(b, best.value, true), Some(Holding(best.value)))
    else if b.queued >= b.limit || !exists p :: Eligible(b.routes, now, p) then (b, None)
    else (b.(queued := b.queued + 1), Some(Waiting(None, false)))
  }

  /** New work that finds no identity waits exactly when some identity is merely in use and the queue has room. */
  lemma AnyPassExactly(b: Books, now: int, best: Option<Place>)
    requires best.Some? ==> On(b.routes, best.value)
    ensures var (c, x) := AnyPass(b, now, best);
            && (x.Some? && x.value.Holding? <==> best.Some?) && (best.Some? ==> x == Some(Holding(best.value)))
            && (x == Some(Waiting(None, false)) <==> best.None? && b.queued < b.limit && exists p :: Eligible(b.routes, now, p))
            && (x.None? ==> c == b)
            && (x.Some? && x.value.Waiting? ==> c == b.(queued := b.queued + 1))
  {
  }

  function Moved(w: World, c: nat, to: (Books, Option<Caller>)): World {
    World(to.0, if to.1.Some? then w.callers[c := to.1.value] else Gone(w.callers, c))
  }

  ghost function Step(w: World, e: Event): World
    requires Inv(w) && Enabled(w, e)
  {
    match e
    case Arrive(c, own) => w.(callers := w.callers[c := Trying(own, false)])
    case TryAny(c, now, best) => Moved(w, c, AnyPass(w.b, now, best))
    case TryOwn(c, now) =>
      assert CallerOk(w, c);
      Moved(w, c, OwnStep(w.b, w.callers[c], now))
    case TurnedAway(c) =>
      assert CallerOk(w, c);
      Moved(w, c, (Begun(w.b, w.callers[c]), None))
    case Leave(c) =>
      assert CallerOk(w, c);
      Moved(w, c, (Waits(w.b, w.callers[c].p, false), None))
    case Wake(c) =>
      Moved(w, c, (w.b.(queued := if w.b.queued > 0 then w.b.queued - 1 else 0), Some(Trying(w.callers[c].own, w.callers[c].reserved))))
    case Finish(c, cooldown) =>
      assert CallerOk(w, c);
      Moved(w, c, (Returned(w.b, w.callers[c].p, cooldown), None))
    case RouteRests(route, cooldown) =>
      w.(b := w.b.(routes := w.b.routes[route := w.b.routes[route].(cooldown := cooldown)]))
  }

  // ----- The invariant --------------------------------------------------------------------

  ghost function Reservers(m: map<nat, Caller>, p: Place): set<nat> {
    set c | c in m && Reserves(m[c], p)
  }

  ghost function Holders(m: map<nat, Caller>, p: Place): set<nat> {
    set c | c in m && m[c] == Holding(p)
  }

  ghost function Queuers(m: map<nat, Caller>): set<nat> {
    set c | c in m && m[c].Waiting?
  }

  /** What an operation names exists; only work for its own media reserves. */
  ghost predicate CallerOk(w: World, c: nat) {
    c in w.callers ==>
      match w.callers[c]
      case Trying(own, reserved) => (own.Some? ==> Filled(w.b.routes, own.value)) && (reserved ==> own.Some?)
      case Waiting(own, reserved) => (own.Some? ==> Filled(w.b.routes, own.value)) && (reserved ==> own.Some?)
      case Leaving(p) => Filled(w.b.routes, p)
      case Holding(p) => Filled(w.b.routes, p)
  }

  /** An identity counts exactly who waits for it, and is busy exactly while it has its one holder. */
  ghost predicate PlaceOk(b: Books, m: map<nat, Caller>, p: Place) {
    Filled(b.routes, p) ==>
      && At(b.routes, p).value.waiting == |Reservers(m, p)|
      && |Holders(m, p)| == if At(b.routes, p).value.busy then 1 else 0
  }

  ghost predicate Inv(w: World) {
    && Grid(w.b.routes)
    && (forall c: nat {:trigger CallerOk(w, c)} :: CallerOk(w, c))
    && (forall p: Place {:trigger PlaceOk(w.b, w.callers, p)} :: PlaceOk(w.b, w.callers, p))
    && w.b.queued == |Queuers(w.callers)| <= w.b.limit
  }

  // ----- Sets of callers --------------------------------------------------------------------

  lemma OneMoreOrLess(s: set<nat>, c: nat)
    ensures |s + {c}| == |s| + if c in s then 0 else 1
    ensures |s - {c}| == |s| - if c in s then 1 else 0
  {
    if c in s {
      assert s + {c} == s;
    } else {
      assert s - {c} == s;
    }
  }

  lemma PutCaller(m: map<nat, Caller>, c: nat, x: Caller, p: Place)
    ensures var n := m[c := x];
            && Reservers(n, p) == (if Reserves(x, p) then Reservers(m, p) + {c} else Reservers(m, p) - {c})
            && Holders(n, p) == (if x == Holding(p) then Holders(m, p) + {c} else Holders(m, p) - {c})
            && Queuers(n) == if x.Waiting? then Queuers(m) + {c} else Queuers(m) - {c}
  {
  }

  lemma DropCaller(m: map<nat, Caller>, c: nat, p: Place)
    ensures Reservers(Gone(m, c), p) == Reservers(m, p) - {c}
    ensures Holders(Gone(m, c), p) == Holders(m, p) - {c}
    ensures Queuers(Gone(m, c)) == Queuers(m) - {c}
  {
  }

  /** What `c`'s move does to the counts of a place and of the queue. */
  ghost predicate Counts(b: Books, m: map<nat, Caller>, b': Books, c: nat, x: Option<Caller>, p: Place) {
    && (Filled(b'.routes, p) ==>
          var was := if Filled(b.routes, p) then At(b.routes, p).value else Entry(0, 0, false, 0, 0);
          var e := At(b'.routes, p).value;
          && e.waiting == was.waiting + (if x.Some? && Reserves(x.value, p) then 1 else 0) - (if c in m && Reserves(m[c], p) then 1 else 0)
          && (if e.busy then 1 else 0) ==
             (if was.busy then 1 else 0) + (if x == Some(Holding(p)) then 1 else 0) - (if c in m && m[c] == Holding(p) then 1 else 0))
    && b'.queued == b.queued + (if x.Some? && x.value.Waiting? then 1 else 0) - (if c in m && m[c].Waiting? then 1 else 0)
  }

  /** Nobody names a place that is not filled. */
  lemma EmptyPlaceIsUnnamed(w: World, p: Place)
    requires Inv(w) && !Filled(w.b.routes, p)
    ensures Reservers(w.callers, p) == {} && Holders(w.callers, p) == {}
  {
    forall c <- w.callers ensures !Reserves(w.callers[c], p) && w.callers[c] != Holding(p) {
      assert CallerOk(w, c);
    }
  }

  lemma MoveCounts(w: World, c: nat, to: (Books, Option<Caller>), p: Place)
    requires Inv(w) && Counts(w.b, w.callers, to.0, c, to.1, p)
    ensures PlaceOk(to.0, Moved(w, c, to).callers, p)
    ensures to.0.queued == |Queuers(Moved(w, c, to).callers)|
  {
    assert PlaceOk(w.b, w.callers, p);
    if !Filled(w.b.routes, p) {
      EmptyPlaceIsUnnamed(w, p);
    }
    OneMoreOrLess(Reservers(w.callers, p), c);
    OneMoreOrLess(Holders(w.callers, p), c);
    OneMoreOrLess(Queuers(w.callers), c);
    if to.1.Some? {
      PutCaller(w.callers, c, to.1.value, p);
    } else {
      DropCaller(w.callers, c, p);
    }
  }

  /** Places stay filled, and what the operation names next is filled. */
  ghost predicate Grows(b: Books, b': Books, x: Option<Caller>) {
    && Grid(b'.routes) && b'.limit == b.limit && b'.queued <= b'.limit
    && (forall p :: Filled(b.routes, p) ==> Filled(b'.routes, p))
    && (x.Some? ==>
          match x.value
          case Trying(own, reserved) => (own.Some? ==> Filled(b'.routes, own.value)) && (reserved ==> own.Some?)
          case Waiting(own, reserved) => (own.Some? ==> Filled(b'.routes, own.value)) && (reserved ==> own.Some?)
          case Leaving(p) => Filled(b'.routes, p)
          case Holding(p) => Filled(b'.routes, p))
  }

  lemma MoveKeepsInv(w: World, c: nat, to: (Books, Option<Caller>))
    requires Inv(w) && Grows(w.b, to.0, to.1)
    requires forall p {:trigger Counts(w.b, w.callers, to.0, c, to.1, p)} :: Counts(w.b, w.callers, to.0, c, to.1, p)
    ensures Inv(Moved(w, c, to))
  {
    var v := Moved(w, c, to);
    forall p: Place ensures PlaceOk(v.b, v.callers, p) && v.b.queued == |Queuers(v.callers)| {
      MoveCounts(w, c, to, p);
    }
    assert PlaceOk(v.b, v.callers, Place(0, 0));
    forall d: nat ensures CallerOk(v, d) {
      assert CallerOk(w, d);
    }
  }

  // ----- Every event -------------------------------------------------------------------------

  lemma AnyPassKeepsInv(w: World, c: nat, now: int, best: Option<Place>)
    requires Inv(w) && Enabled(w, TryAny(c, now, best))
    ensures Inv(Moved(w, c, AnyPass(w.b, now, best)))
  {
    var to := AnyPass(w.b, now, best);
    assert CallerOk(w, c);
    forall p ensures Counts(w.b, w.callers, to.0, c, to.1, p) {
    }
    MoveKeepsInv(w, c, to);
  }

  lemma ReservedIsCounted(w: World, c: nat, p: Place)
    requires Inv(w) && c in w.callers && Reserves(w.callers[c], p)
    ensures Filled(w.b.routes, p) && At(w.b.routes, p).value.waiting > 0
  {
    assert CallerOk(w, c) && PlaceOk(w.b, w.callers, p);
    assert c in Reservers(w.callers, p);
  }

  lemma HeldIsBusy(w: World, c: nat, p: Place)
    requires Inv(w) && c in w.callers && w.callers[c] == Holding(p)
    ensures Filled(w.b.routes, p) && At(w.b.routes, p).value.busy
  {
    assert CallerOk(w, c) && PlaceOk(w.b, w.callers, p);
    assert c in Holders(w.callers, p);
  }

  lemma OwnPassKeepsInv(w: World, c: nat, now: int)
    requires Inv(w) && Enabled(w, TryOwn(c, now)) && CallerOk(w, c)
    ensures Inv(Moved(w, c, OwnStep(w.b, w.callers[c], now)))
  {
    var x := w.callers[c];
    var to := OwnStep(w.b, x, now);
    if x.reserved {
      ReservedIsCounted(w, c, x.own.value);
    }
    forall p ensures Counts(w.b, w.callers, to.0, c, to.1, p) {
    }
    MoveKeepsInv(w, c, to);
  }

  lemma TurnedKeepsInv(w: World, c: nat)
    requires Inv(w) && Enabled(w, TurnedAway(c)) && CallerOk(w, c)
    ensures Inv(Moved(w, c, (Begun(w.b, w.callers[c]), None)))
  {
    var x := w.callers[c];
    var to: (Books, Option<Caller>) := (Begun(w.b, x), None);
    if x.reserved {
      ReservedIsCounted(w, c, x.own.value);
    }
    forall p ensures Counts(w.b, w.callers, to.0, c, to.1, p) {
    }
    MoveKeepsInv(w, c, to);
  }

  lemma LeaveKeepsInv(w: World, c: nat)
    requires Inv(w) && Enabled(w, Leave(c)) && CallerOk(w, c)
    ensures Inv(Moved(w, c, (Waits(w.b, w.callers[c].p, false), None)))
  {
    var to: (Books, Option<Caller>) := (Waits(w.b, w.callers[c].p, false), None);
    ReservedIsCounted(w, c, w.callers[c].p);
    forall p ensures Counts(w.b, w.callers, to.0, c, to.1, p) {
    }
    MoveKeepsInv(w, c, to);
  }

  lemma WakeKeepsInv(w: World, c: nat)
    requires Inv(w) && Enabled(w, Wake(c))
    ensures Inv(Step(w, Wake(c)))
  {
    assert CallerOk(w, c) && c in Queuers(w.callers);
    var to := (w.b.(queued := w.b.queued - 1), Some(Trying(w.callers[c].own, w.callers[c].reserved)));
    forall p ensures Counts(w.b, w.callers, to.0, c, to.1, p) {
    }
    MoveKeepsInv(w, c, to);
  }

  lemma FinishKeepsInv(w: World, c: nat, cooldown: int)
    requires Inv(w) && Enabled(w, Finish(c, cooldown)) && CallerOk(w, c)
    ensures Inv(Moved(w, c, (Returned(w.b, w.callers[c].p, cooldown), None)))
  {
    var to: (Books, Option<Caller>) := (Returned(w.b, w.callers[c].p, cooldown), None);
    HeldIsBusy(w, c, w.callers[c].p);
    forall p ensures Counts(w.b, w.callers, to.0, c, to.1, p) {
    }
    MoveKeepsInv(w, c, to);
  }

  lemma ArriveKeepsInv(w: World, c: nat, own: Option<Place>)
    requires Inv(w) && Enabled(w, Arrive(c, own))
    ensures Inv(w.(callers := w.callers[c := Trying(own, false)]))
  {
    var to := (w.b, Some(Trying(own, false)));
    forall p ensures Counts(w.b, w.callers, to.0, c, to.1, p) {
    }
    MoveKeepsInv(w, c, to);
  }

  lemma RestKeepsInv(w: World, route: nat, cooldown: int)
    requires Inv(w) && Enabled(w, RouteRests(route, cooldown))
    ensures Inv(Step(w, RouteRests(route, cooldown)))
  {
    var v := Step(w, RouteRests(route, cooldown));
    forall p: Place ensures PlaceOk(v.b, v.callers, p) {
      assert PlaceOk(w.b, w.callers, p);
    }
    forall c: nat ensures CallerOk(v, c) {
      assert CallerOk(w, c);
    }
  }

  lemma StepKeepsInv(w: World, e: Event)
    requires Inv(w) && Enabled(w, e)
    ensures Inv(Step(w, e))
  {
    match e
    case Arrive(c, own) => ArriveKeepsInv(w, c, own);
    case TryAny(c, now, best) => AnyPassKeepsInv(w, c, now, best);
    case TryOwn(c, now) =>
      assert CallerOk(w, c);
      OwnPassKeepsInv(w, c, now);
    case TurnedAway(c) =>
      assert CallerOk(w, c);
      TurnedKeepsInv(w, c);
    case Leave(c) =>
      assert CallerOk(w, c);
      LeaveKeepsInv(w, c);
    case Wake(c) => WakeKeepsInv(w, c);
    case Finish(c, cooldown) =>
      assert CallerOk(w, c);
      FinishKeepsInv(w, c, cooldown);
    case RouteRests(route, cooldown) => RestKeepsInv(w, route, cooldown);
  }

  // ----- Runs ------------------------------------------------------------------------------

  /** No operation is under way; every identity is idle. */
  ghost predicate Initial(w: World) {
    && w.callers == map[] && w.b.queued == 0 && Grid(w.b.routes)
    && forall p :: Filled(w.b.routes, p) ==> !At(w.b.routes, p).value.busy && At(w.b.routes, p).value.waiting == 0
  }

  lemma InitialIsSound(w: World)
    requires Initial(w)
    ensures Inv(w)
  {
    assert Queuers(w.callers) == {};
    forall p: Place ensures PlaceOk(w.b, w.callers, p) {
      assert Reservers(w.callers, p) == {} && Holders(w.callers, p) == {};
    }
  }

  ghost function Apply(w: World, e: Event): (v: World)
    requires Inv(w) && Enabled(w, e)
    ensures Inv(v)
  {
    StepKeepsInv(w, e);
    Step(w, e)
  }

  ghost predicate Possible(w: World, run: seq<Event>)
    requires Inv(w)
    decreases |run|
  {
    run != [] ==> Enabled(w, run[0]) && Possible(Apply(w, run[0]), run[1..])
  }

  ghost function After(w: World, run: seq<Event>): (v: World)
    requires Inv(w) && Possible(w, run)
    ensures Inv(v)
    decreases |run|
  {
    if run == [] then w else After(Apply(w, run[0]), run[1..])
  }

  /** However operations arrive, wait, give up and finish, no identity has two holders. */
  lemma OneHolder(w: World, run: seq<Event>, c: nat, d: nat, p: Place)
    requires Inv(w) && Possible(w, run)
    requires var v := After(w, run); c in v.callers && d in v.callers && v.callers[c] == Holding(p) && v.callers[d] == Holding(p)
    ensures c == d
  {
    var v := After(w, run);
    HeldIsBusy(v, c, p);
    assert PlaceOk(v.b, v.callers, p);
    var h := Holders(v.callers, p);
    assert c in h && d in h;
    OneMoreOrLess(h, c);
    assert c != d ==> d in h - {c};
  }

  /** `waiting` is the number of operations queued for the identity, and the queue keeps its limit. */
  lemma WaitingIsExact(w: World, run: seq<Event>, p: Place)
    requires Inv(w) && Possible(w, run) && Filled(After(w, run).b.routes, p)
    ensures var v := After(w, run);
            && At(v.b.routes, p).value.waiting == |Reservers(v.callers, p)|
            && v.b.queued == |Queuers(v.callers)| <= v.b.limit
  {
    var v := After(w, run);
    assert PlaceOk(v.b, v.callers, p);
  }

  /** New work never takes an identity that another operation holds or waits for. */
  lemma NewWorkSparesReserved(w: World, run: seq<Event>, c: nat, now: int, p: Place, d: nat)
    requires Inv(w) && Possible(w, run) && Enabled(After(w, run), TryAny(c, now, Some(p)))
    requires d in After(w, run).callers
    ensures !Reserves(After(w, run).callers[d], p) && After(w, run).callers[d] != Holding(p)
  {
    var v := After(w, run);
    if Reserves(v.callers[d], p) {
      ReservedIsCounted(v, d, p);
    }
    if v.callers[d] == Holding(p) {
      HeldIsBusy(v, d, p);
    }
  }

  // ----- Resting -----------------------------------------------------------------------------

  /** The pass, if `e` is one, is made before `until`. */
  predicate Early(e: Event, until: int) {
    match e
    case TryAny(_, now, _) => now < until
    case TryOwn(_, now) => now < until
    case _ => true
  }

  /** The identity at `p` is idle and rests until then. */
  ghost predicate Rests(w: World, p: Place, until: int) {
    Filled(w.b.routes, p) && !At(w.b.routes, p).value.busy && At(w.b.routes, p).value.cooldown == until
  }

  lemma IdleIsUnheld(w: World, p: Place, c: nat)
    requires Inv(w) && c in w.callers && Filled(w.b.routes, p) && !At(w.b.routes, p).value.busy
    ensures w.callers[c] != Holding(p)
  {
    if w.callers[c] == Holding(p) {
      HeldIsBusy(w, c, p);
    }
  }

  lemma StepKeepsResting(w: World, e: Event, p: Place, until: int)
    requires Inv(w) && Enabled(w, e) && Rests(w, p, until) && Early(e, until)
    ensures Rests(Step(w, e), p, until)
  {
    if e.Finish? {
      IdleIsUnheld(w, p, e.c);
      assert CallerOk(w, e.c);
    } else if e.TryOwn? || e.TurnedAway? || e.Leave? {
      assert CallerOk(w, e.c);
    }
  }

  lemma FinishRests(w: World, c: nat, cooldown: int)
    requires Inv(w) && Enabled(w, Finish(c, cooldown))
    ensures Rests(Step(w, Finish(c, cooldown)), w.callers[c].p, cooldown)
  {
    assert CallerOk(w, c);
  }

  lemma {:induction false} RunKeepsResting(w: World, run: seq<Event>, p: Place, until: int)
    requires Inv(w) && Possible(w, run) && Rests(w, p, until) && forall i :: 0 <= i < |run| ==> Early(run[i], until)
    ensures Rests(After(w, run), p, until)
    decreases |run|
  {
    if run != [] {
      StepKeepsResting(w, run[0], p, until);
      forall i | 0 <= i < |run[1..]| ensures Early(run[1..][i], until) {
        assert run[1..][i] == run[i + 1];
      }
      RunKeepsResting(Apply(w, run[0]), run[1..], p, until);
    }
  }

  /** An identity that was sent to rest is left alone until then: nobody holds it, in any run of passes made earlier. */
  lemma RestingIsLeftAlone(w: World, c: nat, cooldown: int, run: seq<Event>, d: nat)
    requires Inv(w) && Enabled(w, Finish(c, cooldown)) && Possible(Apply(w, Finish(c, cooldown)), run)
    requires forall i :: 0 <= i < |run| ==> Early(run[i], cooldown)
    ensures var v := After(Apply(w, Finish(c, cooldown)), run);
            d in v.callers ==> v.callers[d] != Holding(w.callers[c].p)
  {
    var u := Apply(w, Finish(c, cooldown));
    FinishRests(w, c, cooldown);
    RunKeepsResting(u, run, w.callers[c].p, cooldown);
    if d in After(u, run).callers {
      IdleIsUnheld(After(u, run), w.callers[c].p, d);
    }
  }

  // ----- Order of selection --------------------------------------------------------------------

  ghost predicate Ordered(b: Books) {
    forall q :: On(b.routes, q) ==> LastSelected(b.routes, q) <= b.sequence
  }

  lemma StepKeepsOrder(w: World, e: Event)
    requires Inv(w) && Enabled(w, e) && Ordered(w.b)
    ensures Ordered(Step(w, e).b)
  {
    if e.TryAny? && e.best.Some? {
      TakenIsNewest(w.b, e.best.value);
    } else if e.TryOwn? || e.TurnedAway? || e.Leave? || e.Finish? {
      assert CallerOk(w, e.c);
    }
    var v := Step(w, e);
    forall q | On(v.b.routes, q) ensures LastSelected(v.b.routes, q) <= v.b.sequence {
      assert On(w.b.routes, q) && LastSelected(w.b.routes, q) <= w.b.sequence;
    }
  }

  /** In every run the identity taken last for new work counts as selected last, so that of equally used ones another is next. */
  lemma {:induction false} LastTakenIsNewest(w: World, run: seq<Event>, c: nat, now: int, p: Place, q: Place)
    requires Inv(w) && Ordered(w.b) && Possible(w, run) && Enabled(After(w, run), TryAny(c, now, Some(p)))
    ensures var v := Step(After(w, run), TryAny(c, now, Some(p)));
            On(v.b.routes, q) && q != p ==> LastSelected(v.b.routes, q) < LastSelected(v.b.routes, p)
    decreases |run|
  {
    if run == [] {
      TakenIsNewest(w.b, p);
    } else {
      StepKeepsOrder(w, run[0]);
      LastTakenIsNewest(Apply(w, run[0]), run[1..], c, now, p, q);
    }
  }

  // ----- Balance -----------------------------------------------------------------------------

  ghost predicate Balanced(routes: seq<Route>) {
    forall p, q {:trigger Assignments(routes, p), Assignments(routes, q)} :: On(routes, p) && On(routes, q) ==>
      Assignments(routes, p) <= Assignments(routes, q) + 1
  }

  /** Every identity is idle and none is cooling down. */
  ghost predicate AllIdle(routes: seq<Route>, now: int) {
    forall p {:trigger Candidate(routes, now, p)} :: On(routes, p) ==> Candidate(routes, now, p)
  }

  /** One operation after another: each takes the least used identity and returns it. */
  ghost predicate Served(b: Books, now: int, ps: seq<Place>, end: Books)
    decreases |ps|
  {
    if ps == [] then end == b
    else Least(b.routes, now, ps[0]) && Served(Returned(Taken(b, ps[0], true), ps[0], 0), now, ps[1..], end)
  }

  lemma ServingBalances(b: Books, now: int, p: Place)
    requires now >= 0 && Balanced(b.routes) && AllIdle(b.routes, now) && Least(b.routes, now, p)
    ensures var c := Returned(Taken(b, p, true), p, 0); Balanced(c.routes) && AllIdle(c.routes, now)
  {
    var c := Returned(Taken(b, p, true), p, 0);
    forall q | On(c.routes, q)
      ensures Assignments(c.routes, q) == Assignments(b.routes, q) + (if q == p then 1 else 0)
      ensures Candidate(b.routes, now, q) && Assignments(b.routes, p) <= Assignments(b.routes, q)
      ensures Candidate(c.routes, now, q)
    {
    }
  }

  /** In sequential work without cooldowns no identity is ever used two times more than another. */
  lemma {:induction false} SequentialUseIsBalanced(b: Books, now: int, ps: seq<Place>, end: Books)
    requires now >= 0 && Balanced(b.routes) && AllIdle(b.routes, now) && Served(b, now, ps, end)
    ensures Balanced(end.routes)
    decreases |ps|
  {
    if ps != [] {
      ServingBalances(b, now, ps[0]);
      SequentialUseIsBalanced(Returned(Taken(b, ps[0], true), ps[0], 0), now, ps[1..], end);
    }
  }
}
