/**
 One request over several Instagram accounts: it tries another account as long as
 the failures allow that, and never the same one again.
 */
module Attempts {
  import opened Common
  import opened Scheduler

  /** The account's answer; a failure may allow another account to be tried. */
  datatype Reply = Served | Failed(retry: bool)

  /**
   What one attempt meets: the pool at the pass that decides about admission, or a
   refusal; the reply; whether its effects could be stored; whether the request's
   context has ended by then, or ends before the next attempt.
   */
  datatype Attempt = Attempt(
    refused: bool, accounts: seq<Account>, next: nat, now: int,
    reply: Reply, stored: bool, ended: bool)

  datatype Result =
    | Answer(id: nat)
    | NotAdmitted
    | NotStored
    | Ended
    | LastFailure(attempt: Option<nat>)

  function Ids(used: seq<nat>): set<nat> {
    if used == [] then {} else Ids(used[..|used| - 1]) + {used[|used| - 1]}
  }

  lemma {:induction false} IdsAreUsed(used: seq<nat>, x: nat)
    ensures x in Ids(used) <==> x in used
  {
    if used != [] {
      IdsAreUsed(used[..|used| - 1], x);
      assert used == used[..|used| - 1] + [used[|used| - 1]];
    }
  }

  /** Attempt `a` uses `id`: the scheduler's choice among the accounts not used before. */
  ghost predicate Uses(a: Attempt, active: nat, limit: nat, before: set<nat>, id: nat) {
    && !a.refused
    && exists end: nat, i: nat :: Window(a.accounts, active, end) && Chosen(a.accounts, end, a.next, a.now, before, limit, i)
                                  && a.accounts[i].id == id
  }

  /** Nobody serves attempt `a`: it is refused, or no account in the window is usable that was not used before. */
  ghost predicate Nobody(a: Attempt, active: nat, limit: nat, before: set<nat>) {
    || a.refused
    || exists end: nat :: Window(a.accounts, active, end)
                          && forall i :: 0 <= i < end ==> !Usable(a.accounts[i], a.now, before, limit)
  }

  predicate GoesOn(a: Attempt) {
    a.stored && a.reply == Failed(true) && !a.ended
  }

  /** `r` is the request's result after it used the accounts `used`, one an attempt. */
  ghost predicate Ends(attempts: seq<Attempt>, active: nat, limit: nat, max: nat, used: seq<nat>, r: Result)
    requires |used| <= max <= |attempts|
  {
    var n := |used|;
    match r
    case Answer(id) => n > 0 && attempts[n - 1].stored && attempts[n - 1].reply.Served? && id == used[n - 1]
    case NotAdmitted => n < max && Nobody(attempts[n], active, limit, Ids(used)) && (n == 0 || attempts[n].ended)
    case NotStored => n > 0 && !attempts[n - 1].stored
    case Ended => n > 0 && attempts[n - 1].stored && attempts[n - 1].reply.Failed? && attempts[n - 1].ended
    case LastFailure(None) => n == max == 0
    case LastFailure(Some(k)) =>
      && n > 0 && k == n - 1 && attempts[k].stored && attempts[k].reply.Failed? && !attempts[k].ended
      && (!attempts[k].reply.retry || n == max || (Nobody(attempts[n], active, limit, Ids(used)) && !attempts[n].ended))
  }

  /** Each account was the scheduler's choice among those not used before. */
  ghost predicate UsedInTurn(attempts: seq<Attempt>, active: nat, limit: nat, used: seq<nat>)
    requires |used| <= |attempts|
    decreases |used|
  {
    used != [] ==>
      var n := |used| - 1;
      UsedInTurn(attempts, active, limit, used[..n]) && Uses(attempts[n], active, limit, Ids(used[..n]), used[n])
  }

  /** No request uses an account twice, whatever becomes of the accounts between its attempts. */
  lemma {:induction false} NoneIsUsedTwice(attempts: seq<Attempt>, active: nat, limit: nat, used: seq<nat>, j: nat, k: nat)
    requires |used| <= |attempts| && UsedInTurn(attempts, active, limit, used) && j < k < |used|
    ensures used[j] != used[k]
    decreases |used|
  {
    var before := used[..|used| - 1];
    if k < |before| {
      NoneIsUsedTwice(attempts, active, limit, before, j, k);
    } else {
      IdsAreUsed(before, used[k]);
      assert before[j] == used[j];
    }
  }

  /** What an attempt that used `id` decides; None if the request goes on. */
  function Decided(a: Attempt, id: nat, attempt: nat): (r: Option<Result>)
    ensures r.None? <==> GoesOn(a)
  {
    if !a.stored then Some(NotStored)
    else if a.reply.Served? then Some(Answer(id))
    else if a.ended then Some(Ended)
    else if !a.reply.retry then Some(LastFailure(Some(attempt)))
    else None
  }

  lemma DecidedEnds(attempts: seq<Attempt>, active: nat, limit: nat, max: nat, used: seq<nat>)
    requires 0 < |used| <= max <= |attempts|
    ensures var d := Decided(attempts[|used| - 1], used[|used| - 1], |used| - 1);
            d.Some? ==> Ends(attempts, active, limit, max, used, d.value)
  {
  }

  lemma AllAreDistinct(attempts: seq<Attempt>, active: nat, limit: nat, used: seq<nat>)
    requires |used| <= |attempts| && UsedInTurn(attempts, active, limit, used)
    ensures forall j, k :: 0 <= j < k < |used| ==> used[j] != used[k]
  {
    forall j, k | 0 <= j < k < |used| ensures used[j] != used[k] {
      NoneIsUsedTwice(attempts, active, limit, used, j, k);
    }
  }

  /** A request's attempts; `used` are the accounts it used, in order, none of them twice. */
  method Detail(attempts: seq<Attempt>, active: nat, limit: nat, max: nat) returns (r: Result, used: seq<nat>, tried: set<nat>)
    requires max <= |attempts|
    ensures |used| <= max && tried == Ids(used)
    ensures forall j, k :: 0 <= j < k < |used| ==> used[j] != used[k]
    ensures UsedInTurn(attempts, active, limit, used)
    ensures forall k :: 0 <= k < |used| - 1 ==> GoesOn(attempts[k])
    ensures Ends(attempts, active, limit, max, used, r)
  {
    used, tried := [], {};
    var last: Option<nat> := None;
    for attempt := 0 to max
      invariant |used| == attempt && tried == Ids(used)
      invariant UsedInTurn(attempts, active, limit, used)
      invariant forall k :: 0 <= k < |used| ==> GoesOn(attempts[k])
      invariant last == if attempt == 0 then None else Some(attempt - 1)
    {
      var a := attempts[attempt];
      var id := Admit(a, active, limit, tried);
      if id.None? {
        AllAreDistinct(attempts, active, limit, used);
        return if last.Some? && !a.ended then LastFailure(last) else NotAdmitted, used, tried;
      }
      assert (used + [id.value])[..attempt] == used;
      used, tried := used + [id.value], tried + {id.value};
      DecidedEnds(attempts, active, limit, max, used);
      var decided := Decided(a, id.value, attempt);
      if decided.Some? {
        AllAreDistinct(attempts, active, limit, used);
        return decided.value, used, tried;
      }
      last := Some(attempt);
    }
    AllAreDistinct(attempts, active, limit, used);
    return LastFailure(last), used, tried;
  }

  method Admit(a: Attempt, active: nat, limit: nat, tried: set<nat>) returns (id: Option<nat>)
    ensures id.Some? ==> Uses(a, active, limit, tried, id.value)
    ensures id.None? ==> Nobody(a, active, limit, tried)
  {
    if a.refused {
      return None;
    }
    if a.accounts == [] {
      assert Window(a.accounts, active, 0);
      return None;
    }
    var chosen, _, _ := Select(a.accounts, active, a.next, a.now, tried, limit);
    if chosen.None? {
      return None;
    }
    return Some(a.accounts[chosen.value].id);
  }
}
