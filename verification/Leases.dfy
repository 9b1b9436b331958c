/**
 Leases of identities: every route has ten places for identities, new work takes
 the least used idle one, and work for an identity's own media waits for it.
 */
module Leases {
  import opened Common

  /** An identity; `waiting` counts the operations queued for it. */
  datatype Entry = Entry(assignments: nat, selected: nat, busy: bool, waiting: nat, cooldown: int)

  datatype Route = Route(cooldown: int, slots: seq<Option<Entry>>)

  datatype Place = Place(route: nat, slot: nat)

  datatype Books = Books(routes: seq<Route>, sequence: nat, queued: nat, limit: nat)

  const Slots := 10

  ghost predicate Grid(routes: seq<Route>) {
    forall r :: 0 <= r < |routes| ==> |routes[r].slots| == Slots
  }

  predicate On(routes: seq<Route>, p: Place) {
    p.route < |routes| && p.slot < |routes[p.route].slots|
  }

  function At(routes: seq<Route>, p: Place): Option<Entry>
    requires On(routes, p)
  {
    routes[p.route].slots[p.slot]
  }

  predicate Filled(routes: seq<Route>, p: Place) {
    On(routes, p) && At(routes, p).Some?
  }

  function Put(routes: seq<Route>, p: Place, e: Entry): (rs: seq<Route>)
    requires On(routes, p)
    ensures Grid(routes) ==> Grid(rs)
    ensures forall q :: On(rs, q) <==> On(routes, q)
    ensures forall q :: On(rs, q) ==> At(rs, q) == if q == p then Some(e) else At(routes, q)
  {
    routes[p.route := routes[p.route].(slots := routes[p.route].slots[p.slot := Some(e)])]
  }

  // ----- Which identity ---------------------------------------------------------------

  /** Neither the route nor its identity is cooling down. */
  predicate Eligible(routes: seq<Route>, now: int, p: Place) {
    On(routes, p) && routes[p.route].cooldown <= now && (At(routes, p).Some? ==> At(routes, p).value.cooldown <= now)
  }

  /** Idle, and nobody waits for it. An empty place can be filled. */
  predicate Candidate(routes: seq<Route>, now: int, p: Place) {
    Eligible(routes, now, p) && (At(routes, p).Some? ==> !At(routes, p).value.busy && At(routes, p).value.waiting == 0)
  }

  function Assignments(routes: seq<Route>, p: Place): nat
    requires On(routes, p)
  {
    if At(routes, p).Some? then At(routes, p).value.assignments else 0
  }

  function LastSelected(routes: seq<Route>, p: Place): nat
    requires On(routes, p)
  {
    if At(routes, p).Some? then At(routes, p).value.selected else 0
  }

  /** Fewer assignments, or as many and selected longer ago. */
  predicate Before(routes: seq<Route>, p: Place, q: Place)
    requires On(routes, p) && On(routes, q)
  {
    Assignments(routes, p) < Assignments(routes, q)
    || (Assignments(routes, p) == Assignments(routes, q) && LastSelected(routes, p) < LastSelected(routes, q))
  }

  predicate Scanned(p: Place, q: Place) {
    p.slot < q.slot || (p.slot == q.slot && p.route < q.route)
  }

  /** `p` is the least used candidate, the first of its equals. */
  ghost predicate Least(routes: seq<Route>, now: int, p: Place) {
    Candidate(routes, now, p)
    && forall q {:trigger Candidate(routes, now, q)} :: Candidate(routes, now, q) && q != p ==>
         !Before(routes, q, p) && (Scanned(q, p) ==> Before(routes, p, q))
  }

  /** Among the places scanned before `stop`, `best` is least, or none is a candidate. */
  ghost predicate LeastSoFar(routes: seq<Route>, now: int, best: Option<Place>, stop: Place) {
    && (best.Some? ==> Candidate(routes, now, best.value) && Scanned(best.value, stop))
    && forall q {:trigger Candidate(routes, now, q)} :: Candidate(routes, now, q) && Scanned(q, stop) ==>
         best.Some? && (q == best.value || (!Before(routes, q, best.value) && (Scanned(q, best.value) ==> Before(routes, best.value, q))))
  }

  lemma ScanStep(routes: seq<Route>, now: int, best: Option<Place>, p: Place, best': Option<Place>)
    requires LeastSoFar(routes, now, best, p) && On(routes, p)
    requires best' == if Candidate(routes, now, p) && (best.None? || Before(routes, p, best.value)) then Some(p) else best
    ensures LeastSoFar(routes, now, best', Place(p.route + 1, p.slot))
  {
    forall q | Candidate(routes, now, q) && Scanned(q, Place(p.route + 1, p.slot)) ensures q == p || Scanned(q, p) {
    }
  }

  method Select(routes: seq<Route>, now: int) returns (best: Option<Place>, eligible: bool)
    requires Grid(routes)
    ensures best.Some? ==> Least(routes, now, best.value)
    ensures best.None? ==> forall p :: !Candidate(routes, now, p)
    ensures eligible <==> exists p :: Eligible(routes, now, p)
  {
    best, eligible := None, false;
    for slot := 0 to Slots
      invariant LeastSoFar(routes, now, best, Place(0, slot))
      invariant eligible <==> exists p :: Eligible(routes, now, p) && Scanned(p, Place(0, slot))
    {
      for route := 0 to |routes|
        invariant LeastSoFar(routes, now, best, Place(route, slot))
        invariant eligible <==> exists p :: Eligible(routes, now, p) && Scanned(p, Place(route, slot))
      {
        var p := Place(route, slot);
        ghost var was := best;
        assert eligible || Eligible(routes, now, p) <==> exists q :: Eligible(routes, now, q) && Scanned(q, Place(route + 1, slot)) by {
          forall q ensures Scanned(q, Place(route + 1, slot)) <==> q == p || Scanned(q, p) {
            assert q == Place(q.route, q.slot);
          }
        }
        ScanStep(routes, now, best, p, if Candidate(routes, now, p) && (best.None? || Before(routes, p, best.value)) then Some(p) else best);
        var e := routes[route].slots[slot];
        if routes[route].cooldown > now || (e.Some? && e.value.cooldown > now) {
          continue;
        }
        eligible := true;
        if e.Some? && (e.value.busy || e.value.waiting > 0) {
          continue;
        }
        if best.None? || Before(routes, p, best.value) {
          best := Some(p);
        }
      }
      RowDone(routes, now, best, slot);
      assert forall q :: Eligible(routes, now, q) ==> (Scanned(q, Place(|routes|, slot)) <==> Scanned(q, Place(0, slot + 1)));
    }
    assert forall q :: Eligible(routes, now, q) ==> Scanned(q, Place(0, Slots));
  }

  lemma RowDone(routes: seq<Route>, now: int, best: Option<Place>, slot: nat)
    requires LeastSoFar(routes, now, best, Place(|routes|, slot))
    ensures LeastSoFar(routes, now, best, Place(0, slot + 1))
  {
  }

  // ----- The locked sections ------------------------------------------------------------

  /** An identity taken for new work is counted; for its own media it is not. */
  function Taken(b: Books, p: Place, counted: bool): Books
    requires On(b.routes, p)
  {
    var e := if At(b.routes, p).Some? then At(b.routes, p).value else Entry(0, 0, false, 0, 0);
    if counted then
      b.(sequence := b.sequence + 1,
         routes := Put(b.routes, p, e.(busy := true, assignments := e.assignments + 1, selected := b.sequence + 1)))
    else b.(routes := Put(b.routes, p, e.(busy := true)))
  }

  /** One more, or one fewer, operation waits for an identity. */
  function Waits(b: Books, p: Place, more: bool): Books
    requires Filled(b.routes, p)
  {
    var e := At(b.routes, p).value;
    b.(routes := Put(b.routes, p, e.(waiting := if more then e.waiting + 1 else if e.waiting > 0 then e.waiting - 1 else 0)))
  }

  function Returned(b: Books, p: Place, cooldown: int): Books
    requires Filled(b.routes, p)
  {
    b.(routes := Put(b.routes, p, At(b.routes, p).value.(busy := false, cooldown := cooldown)))
  }

  /** Why a pass is refused: the pool's state, an unknown identity, cooldowns, a full queue, or no session for a new identity. */
  datatype Reason = NotReady | Reconnecting | Unwritable | Unknown | Cooling | Full | NoSession

  datatype Outcome = Took(p: Place) | Queued | Refused(why: Reason)

  /** The books after an operation's reservation, if it has one, is dropped. */
  function Unreserved(b: Books, p: Place, reserved: bool): Books
    requires reserved ==> Filled(b.routes, p)
  {
    if reserved then Waits(b, p, false) else b
  }

  /** A pass for an identity's own media, and whether the identity now counts this operation. */
  function OwnPass(b: Books, p: Place, now: int): (Books, Outcome, bool) {
    if !Filled(b.routes, p) then (b, Refused(Unknown), false)
    else if !Eligible(b.routes, now, p) then (b, Refused(Cooling), false)
    else if !At(b.routes, p).value.busy then (Taken(b, p, false), Took(p), false)
    else if b.queued >= b.limit then (Waits(b, p, true), Refused(Full), true)
    else (Waits(b, p, true).(queued := b.queued + 1), Queued, true)
  }

  /**
   When an identity's own media get it: exactly when it is known, neither it nor its
   route is resting, and it is idle; one that is busy is waited for, within the limit.
   */
  lemma OwnPassExactly(b: Books, p: Place, now: int)
    ensures var (c, o, reserves) := OwnPass(b, p, now);
            var known := Filled(b.routes, p);
            var resting := known && (b.routes[p.route].cooldown > now || At(b.routes, p).value.cooldown > now);
            var busy := known && At(b.routes, p).value.busy;
            && (o == Took(p) <==> known && !resting && !busy) && (o.Took? ==> o.p == p)
            && (o == Refused(Unknown) <==> !known)
            && (o == Refused(Cooling) <==> resting)
            && (reserves <==> known && !resting && busy)
            && (o == Queued <==> reserves && b.queued < b.limit)
            && (o == Refused(Full) <==> reserves && b.queued >= b.limit)
            && (o.Took? ==> At(c.routes, p).value == At(b.routes, p).value.(busy := true) && c.sequence == b.sequence)
            && (reserves ==> At(c.routes, p).value == At(b.routes, p).value.(waiting := At(b.routes, p).value.waiting + 1))
            && (!o.Took? && !reserves ==> c == b)
            && forall q :: q != p && On(b.routes, q) ==> On(c.routes, q) && At(c.routes, q) == At(b.routes, q)
  {
  }

  /** New work counts its identity as selected after every other. */
  lemma TakenIsNewest(b: Books, p: Place)
    requires On(b.routes, p) && forall q :: On(b.routes, q) ==> LastSelected(b.routes, q) <= b.sequence
    ensures var c := Taken(b, p, true);
            && (forall q :: On(c.routes, q) ==> LastSelected(c.routes, q) <= c.sequence)
            && LastSelected(c.routes, p) == c.sequence
            && Assignments(c.routes, p) == Assignments(b.routes, p) + 1
            && forall q :: On(c.routes, q) && q != p ==>
                 LastSelected(c.routes, q) < LastSelected(c.routes, p) && LastSelected(c.routes, q) == LastSelected(b.routes, q)
  {
  }

  class Pool {
    var routes: seq<Route>
    var sequence: nat
    var queued: nat
    const limit: nat
    var ready: bool
    var connected: bool
    var writable: bool

    function View(): Books
      reads this
    {
      Books(routes, sequence, queued, limit)
    }

    /** Not ready, not sure of its ownership, or unable to save what a lease leaves. */
    function Unavailable(): Option<Reason>
      reads this
    {
      if !ready then Some(NotReady)
      else if !connected then Some(Reconnecting)
      else if !writable then Some(Unwritable)
      else None
    }

    constructor (routes: seq<Route>, limit: nat)
      ensures View() == Books(routes, 0, 0, limit) && Unavailable() == Some(NotReady)
    {
      this.routes, sequence, queued, this.limit := routes, 0, 0, limit;
      ready, connected, writable := false, false, true;
    }

    /** One pass for new work; `session` says whether a session can be made for an empty place. */
    method TakeAny(now: int, session: bool) returns (o: Outcome)
      requires Grid(routes)
      modifies this`routes, this`sequence, this`queued
      ensures Grid(routes)
      ensures old(Unavailable()).Some? ==> o == Refused(old(Unavailable()).value) && View() == old(View())
      ensures old(Unavailable()).None? ==>
                && (o.Took? ==> Least(old(routes), now, o.p) && View() == Taken(old(View()), o.p, true))
                && (o == Refused(NoSession) ==> !session && exists p :: Least(old(routes), now, p) && At(old(routes), p).None?)
                && (!o.Took? && o != Refused(NoSession) ==> forall p :: !Candidate(old(routes), now, p))
                && (o.Took? && !session ==> At(old(routes), o.p).Some?)
                && (o.Queued? ==> old(queued) < limit && View() == old(View()).(queued := old(queued) + 1)
                                  && exists p :: Eligible(old(routes), now, p))
                && (o.Refused? ==> View() == old(View()))
                && (o.Refused? && o.why != NoSession ==> o.why == if exists p :: Eligible(old(routes), now, p) then Full else Cooling)
                && (o == Refused(Full) ==> queued >= limit)
    {
      var why := Unavailable();
      if why.Some? {
        return Refused(why.value);
      }
      var best, eligible := Select(routes, now);
      if best.Some? {
        var p := best.value;
        var e := routes[p.route].slots[p.slot];
        if e.None? {
          if !session {
            return Refused(NoSession);
          }
          e := Some(Entry(0, 0, false, 0, 0));
        }
        sequence := sequence + 1;
        routes := Put(routes, p, e.value.(busy := true, assignments := e.value.assignments + 1, selected := sequence));
        return Took(p);
      }
      if !eligible {
        return Refused(Cooling);
      }
      if queued >= limit {
        return Refused(Full);
      }
      queued := queued + 1;
      return Queued;
    }

    /**
     One pass for an identity's own media. It first drops the reservation of an
     earlier pass; `reserves` if the identity counts this operation afterwards.
     */
    method TakeOwn(p: Place, now: int, reserved: bool) returns (o: Outcome, reserves: bool)
      requires Grid(routes) && (reserved ==> Filled(routes, p) && At(routes, p).value.waiting > 0)
      modifies this`routes, this`queued
      ensures Grid(routes)
      ensures var b := Unreserved(old(View()), p, reserved);
              (View(), o, reserves) ==
              if old(Unavailable()).Some? then (b, Refused(old(Unavailable()).value), false) else OwnPass(b, p, now)
    {
      if reserved {
        var e := routes[p.route].slots[p.slot].value;
        routes := Put(routes, p, e.(waiting := e.waiting - 1));
      }
      var why := Unavailable();
      if why.Some? {
        return Refused(why.value), false;
      }
      if !Filled(routes, p) {
        return Refused(Unknown), false;
      }
      var e := routes[p.route].slots[p.slot].value;
      if e.cooldown > now || routes[p.route].cooldown > now {
        return Refused(Cooling), false;
      }
      if !e.busy {
        routes := Put(routes, p, e.(busy := true));
        return Took(p), false;
      }
      routes := Put(routes, p, e.(waiting := e.waiting + 1));
      if queued >= limit {
        return Refused(Full), true;
      }
      queued := queued + 1;
      return Queued, true;
    }
  }
}
