/**
 One Instagram account while its session is renewed, replaced and condemned: late
 responses, renewals and verified updates in any interleaving.

 Sessions are numbered in the order they are made. Every recorded death carries the
 session it was seen on; that number is bookkeeping of the model, the code keeps
 only the reason. Likewise a session's context (its jar of cookies and headers) is
 given by the sessions whose responses filled it.
 */
module Revival {
  import opened Common

  /** Of which sessions' responses a context is made. */
  type Context = set<nat>

  /** A metadata request and where it is; `session` is the one its answer is tagged with. */
  datatype Request =
    | Leased
    | Looking(session: nat, jar: nat)     // sent with a session, its response fills a jar
    | Renewing(session: nat)              // inside the gate, logging in
    | Publishing(session: nat)            // the new session is saved, not yet in memory
    | Answered(session: nat, dead: bool)
    | Guarded(session: nat)               // inside the gate with a death to apply
    | Marking(session: nat)               // applied in memory, not yet recorded
    | Recorded                            // recorded, its flush under way
    | Leaving
    | Saving(session: nat, context: Context)  // inside the gate, a snapshot and its authorization in hand

  datatype Update = Waiting | Drained | Flushed | Verifying | Replaced(session: nat)

  datatype Holder = Free | ByRequest(d: nat) | ByUpdate

  datatype Row = Row(session: nat, dead: bool, seenOn: nat, context: Context)

  /** `disabledOn` is the session that condemned the account, `jar` the jar that new requests use. */
  datatype Account = Account(
    session: nat, jar: nat, jars: map<nat, Context>, disabled: bool, disabledOn: nat,
    requests: map<nat, Request>, writes: nat,
    gate: Holder, update: Option<Update>,
    pending: Option<nat>, row: Row, made: nat)

  datatype Fate = Done | Ambiguous | Lost

  datatype Event =
    | Acquire(d: nat)
    | Look(d: nat)
    | Observe(d: nat)                     // a response's cookies enter the jar it was sent with
    | Answer(d: nat, dead: bool)
    | Renew(d: nat, dead: bool)
    | SaveSession(d: nat, fate: Fate)
    | PublishRenewed(d: nat)
    | RenewFails(d: nat, dead: bool)
    | Guard(d: nat)
    | Apply(d: nat)
    | Record(d: nat)
    | FlushWrites(fate: Fate)
    | Unguard(d: nat)
    | TakeSnapshot(d: nat)
    | SaveContext(d: nat, fate: Fate)
    | Release(d: nat)
    | BeginUpdate
    | Drain
    | FlushedAll
    | EnterGate
    | ReplaceSession(fate: Fate)
    | PublishReplaced
    | AbortUpdate

  function JarOf(a: Account, k: nat): Context {
    if k in a.jars then a.jars[k] else {}
  }

  function Put(a: Account, d: nat, r: Request): Account {
    a.(requests := a.requests[d := r])
  }

  predicate Enabled(a: Account, e: Event) {
    match e
    case Acquire(d) => d !in a.requests && !a.disabled && a.update.None? && a.writes == 0 && a.pending.None?
    case Look(d) => d in a.requests && a.requests[d].Leased?
    case Observe(d) => d in a.requests && a.requests[d].Looking?
    case Answer(d, _) => d in a.requests && a.requests[d].Looking?
    case Renew(d, _) => d in a.requests && a.requests[d].Looking? && a.gate.Free?
    case SaveSession(d, _) => d in a.requests && a.requests[d].Renewing?
    case PublishRenewed(d) => d in a.requests && a.requests[d].Publishing?
    case RenewFails(d, _) => d in a.requests && a.requests[d].Renewing?
    case Guard(d) => d in a.requests && a.requests[d].Answered? && a.requests[d].dead && a.gate.Free?
    case Apply(d) => d in a.requests && a.requests[d].Guarded?
    case Record(d) => d in a.requests && a.requests[d].Marking?
    case FlushWrites(_) => a.pending.Some?
    case Unguard(d) => d in a.requests && a.requests[d].Recorded?
    case TakeSnapshot(d) => d in a.requests && (a.requests[d].Leaving? || (a.requests[d].Answered? && !a.requests[d].dead)) && a.gate.Free?
    case SaveContext(d, _) => d in a.requests && a.requests[d].Saving?
    case Release(d) => d in a.requests && (a.requests[d].Leaving? || (a.requests[d].Answered? && !a.requests[d].dead))
    case BeginUpdate => a.update.None?
    case Drain => a.update == Some(Waiting) && a.requests == map[] && a.writes == 0
    case FlushedAll => a.update == Some(Drained) && a.pending.None?
    case EnterGate => a.update == Some(Flushed) && a.gate.Free?
    case ReplaceSession(_) => a.update == Some(Verifying)
    case PublishReplaced => a.update.Some? && a.update.value.Replaced?
    case AbortUpdate => a.update.Some? && !a.update.value.Replaced?
  }

  function Step(a: Account, e: Event): Account
    requires Enabled(a, e)
  {
    match e
    case Acquire(d) => Put(a, d, Leased)
    case Look(d) => Put(a, d, Looking(a.session, a.jar))
    case Observe(d) =>
      var r := a.requests[d];
      a.(jars := a.jars[r.jar := JarOf(a, r.jar) + {r.session}])
    case Answer(d, dead) => Put(a, d, Answered(a.requests[d].session, dead))
    case Renew(d, dead) =>
      // A disabled account blocks; a session replaced meanwhile is simply used.
      if a.disabled then Put(a, d, Answered(a.requests[d].session, dead))
      else if a.session != a.requests[d].session then Put(a, d, Looking(a.session, a.jar))
      else Put(a, d, Renewing(a.session)).(gate := ByRequest(d))
    case SaveSession(d, fate) =>
      var s := a.made + 1;
      var saves := !fate.Lost? && !a.row.dead;
      var b := a.(made := s, row := if saves then Row(s, false, 0, {s}) else a.row);
      if saves && fate.Done? then Put(b, d, Publishing(s))
      else Put(b, d, Answered(a.requests[d].session, false)).(gate := Free)
    case PublishRenewed(d) =>
      var s := a.requests[d].session;
      Put(a, d, Looking(s, s)).(session := s, jar := s, jars := a.jars[s := {s}], gate := Free)
    case RenewFails(d, dead) => Put(a, d, Answered(a.requests[d].session, dead)).(gate := Free)
    case Guard(d) => Put(a, d, Guarded(a.requests[d].session)).(gate := ByRequest(d))
    case Apply(d) =>
      var s := a.requests[d].session;
      if s != a.session then Put(a, d, Leaving).(gate := Free)
      else Put(a, d, Marking(s)).(disabled := true, disabledOn := s, writes := a.writes + 1)
    case Record(d) => Put(a, d, Recorded).(pending := Some(a.requests[d].session))
    case FlushWrites(fate) =>
      a.(row := if fate.Lost? then a.row else a.row.(dead := true, seenOn := a.pending.value),
         pending := if fate.Done? then None else a.pending)
    case Unguard(d) => Put(a, d, Leaving).(gate := Free, writes := if a.writes > 0 then a.writes - 1 else 0)
    case TakeSnapshot(d) => Put(a, d, Saving(a.session, JarOf(a, a.jar))).(gate := ByRequest(d))
    case SaveContext(d, fate) =>
      // The stored session is compared with the snapshot's while the row is locked.
      var r := a.requests[d];
      var b := Put(a, d, Leaving).(gate := Free);
      if !fate.Lost? && a.row.session == r.session then b.(row := a.row.(context := r.context)) else b
    case Release(d) => a.(requests := map r | r in a.requests && r != d :: a.requests[r])
    case BeginUpdate => a.(update := Some(Waiting))
    case Drain => a.(update := Some(Drained))
    case FlushedAll => a.(update := Some(Flushed))
    case EnterGate => a.(update := Some(Verifying), gate := ByUpdate)
    case ReplaceSession(fate) =>
      var s := a.made + 1;
      var b := a.(made := s, row := if fate.Lost? then a.row else Row(s, false, 0, {s}));
      if fate.Done? then b.(update := Some(Replaced(s))) else b.(update := None, gate := Free)
    case PublishReplaced =>
      var s := a.update.value.session;
      a.(session := s, jar := s, jars := a.jars[s := {s}], disabled := false, update := None, gate := Free)
    case AbortUpdate => a.(update := None, gate := if a.gate.ByUpdate? then Free else a.gate)
  }

  // ----- The invariant --------------------------------------------------------------------

  predicate InGate(r: Request) {
    r.Renewing? || r.Publishing? || r.Guarded? || r.Marking? || r.Recorded? || r.Saving?
  }

  /** Request `d` is inside the gate exactly when it holds it, and what it is about to do still applies. */
  ghost predicate RequestOk(a: Account, d: nat) {
    d in a.requests ==>
      var r := a.requests[d];
      && (InGate(r) <==> a.gate == ByRequest(d))
      && (r.Renewing? ==> r.session == a.session && !a.disabled)
      && (r.Publishing? ==> !a.disabled && !a.row.dead && r.session == a.row.session && r.session > a.session)
      && (r.Marking? ==> r.session == a.session && a.disabled)
      && (r.Looking? ==> r.session == r.jar)
      && (r.Saving? ==> r.context <= {r.session})
  }

  /** Who holds the gate, and how far an update is. */
  ghost predicate GateOk(a: Account) {
    && (a.gate.ByRequest? ==> a.gate.d in a.requests)
    && (a.gate.ByUpdate? <==> a.update.Some? && (a.update.value.Verifying? || a.update.value.Replaced?))
    && (a.update.Some? && !a.update.value.Waiting? ==> a.requests == map[])
    && a.writes == (if a.gate.ByRequest? && IsWriting(a, a.gate.d) then 1 else 0)
  }

  /** What condemned the account was seen on the session in memory. */
  ghost predicate HealthOk(a: Account) {
    && (a.update.Some? && !a.update.value.Waiting? && !a.update.value.Drained? ==> a.pending.None?)
    && (a.update.Some? && a.update.value.Replaced? ==>
          !a.row.dead && a.update.value.session == a.row.session && a.row.session > a.session)
    && (a.disabled ==> a.disabledOn == a.session)
    && (a.pending.Some? ==> a.disabled && a.pending.value == a.session)
    && (a.row.dead ==> a.disabled && a.row.seenOn == a.session)
    && a.session <= a.made && a.row.session <= a.made
  }

  ghost predicate Inv(a: Account) {
    (forall d: nat {:trigger RequestOk(a, d)} :: RequestOk(a, d)) && GateOk(a) && HealthOk(a) && ContextsOk(a)
  }

  /** Every context is made of responses to its own session. */
  ghost predicate ContextsOk(a: Account) {
    && a.jar == a.session
    && (forall k <- a.jars :: a.jars[k] <= {k})
    && a.row.context <= {a.row.session}
  }

  /** Request `d` has a health write under way. */
  ghost predicate IsWriting(a: Account, d: nat) {
    d in a.requests && (a.requests[d].Marking? || a.requests[d].Recorded?)
  }

  /** Memory and database agree on the session, but while one is being replaced. */
  ghost predicate InStep(a: Account) {
    && (a.row.session == a.session
        || (a.update.Some? && a.update.value.Replaced?)
        || (a.gate.ByRequest? && a.gate.d in a.requests && a.requests[a.gate.d].Publishing?))
    && (a.row.dead ==> a.row.seenOn == a.row.session == a.session)
  }

  ghost predicate Certain(e: Event) {
    (e.SaveSession? || e.ReplaceSession?) ==> !e.fate.Ambiguous?
  }

  lemma StepKeepsRequest(a: Account, e: Event, d: nat)
    requires Inv(a) && Enabled(a, e)
    ensures RequestOk(Step(a, e), d)
  {
    assert RequestOk(a, d);
    if a.gate.ByRequest? {
      assert RequestOk(a, a.gate.d);
    }
    if Actor(e).Some? {
      assert RequestOk(a, Actor(e).value);
    }
  }

  lemma StepKeepsGate(a: Account, e: Event)
    requires Inv(a) && Enabled(a, e)
    ensures GateOk(Step(a, e))
  {
    if Actor(e).Some? {
      assert RequestOk(a, Actor(e).value);
    }
  }

  lemma StepKeepsHealth(a: Account, e: Event)
    requires Inv(a) && Enabled(a, e)
    ensures HealthOk(Step(a, e))
  {
    if Actor(e).Some? {
      assert RequestOk(a, Actor(e).value);
    }
  }

  lemma StepKeepsContexts(a: Account, e: Event)
    requires Inv(a) && Enabled(a, e)
    ensures ContextsOk(Step(a, e))
  {
    if Actor(e).Some? {
      assert RequestOk(a, Actor(e).value);
    }
  }

  lemma StepKeepsInv(a: Account, e: Event)
    requires Inv(a) && Enabled(a, e)
    ensures Inv(Step(a, e))
  {
    forall d: nat ensures RequestOk(Step(a, e), d) {
      StepKeepsRequest(a, e, d);
    }
    StepKeepsGate(a, e);
    StepKeepsHealth(a, e);
    StepKeepsContexts(a, e);
  }

  /** The request an event belongs to. */
  function Actor(e: Event): Option<nat> {
    match e
    case Acquire(d) => Some(d)
    case Look(d) => Some(d)
    case Observe(d) => Some(d)
    case Answer(d, _) => Some(d)
    case Renew(d, _) => Some(d)
    case SaveSession(d, _) => Some(d)
    case PublishRenewed(d) => Some(d)
    case RenewFails(d, _) => Some(d)
    case Guard(d) => Some(d)
    case Apply(d) => Some(d)
    case Record(d) => Some(d)
    case Unguard(d) => Some(d)
    case TakeSnapshot(d) => Some(d)
    case SaveContext(d, _) => Some(d)
    case Release(d) => Some(d)
    case _ => None
  }

  lemma StepKeepsInStep(a: Account, e: Event)
    requires Inv(a) && InStep(a) && Enabled(a, e) && Certain(e)
    ensures InStep(Step(a, e))
  {
    if Actor(e).Some? {
      assert RequestOk(a, Actor(e).value);
    }
    if a.gate.ByRequest? {
      assert RequestOk(a, a.gate.d);
    }
  }

  lemma SessionsGrow(a: Account, e: Event)
    requires Inv(a) && Enabled(a, e)
    ensures a.session <= Step(a, e).session
  {
    if Actor(e).Some? {
      assert RequestOk(a, Actor(e).value);
    }
  }

  // ----- Runs -----------------------------------------------------------------------------

  /** A loaded account: alive or dead as stored. */
  ghost predicate Initial(a: Account) {
    && a.requests == map[] && a.writes == 0 && a.gate.Free? && a.update.None? && a.pending.None?
    && a.row.session == a.session <= a.made && a.disabled == a.row.dead && ContextsOk(a)
    && (a.disabled ==> a.disabledOn == a.session == a.row.seenOn)
  }

  ghost predicate Possible(a: Account, run: seq<Event>)
    decreases |run|
  {
    run != [] ==> Enabled(a, run[0]) && Possible(Step(a, run[0]), run[1..])
  }

  ghost function After(a: Account, run: seq<Event>): Account
    requires Possible(a, run)
    decreases |run|
  {
    if run == [] then a else After(Step(a, run[0]), run[1..])
  }

  lemma InitialIsSound(a: Account)
    requires Initial(a)
    ensures Inv(a) && InStep(a)
  {
    forall d: nat ensures RequestOk(a, d) {
    }
  }

  lemma {:induction false} RunKeepsInv(a: Account, run: seq<Event>)
    requires Inv(a) && Possible(a, run)
    ensures Inv(After(a, run)) && a.session <= After(a, run).session
    ensures InStep(a) && (forall i :: 0 <= i < |run| ==> Certain(run[i])) ==> InStep(After(a, run))
    decreases |run|
  {
    if run != [] {
      StepKeepsInv(a, run[0]);
      SessionsGrow(a, run[0]);
      if InStep(a) && Certain(run[0]) {
        StepKeepsInStep(a, run[0]);
      }
      RunKeepsInv(Step(a, run[0]), run[1..]);
    }
  }

  /**
   In every interleaving, an account is disabled only by a failure of the session
   it still uses, and a recorded death that waits to be written is of that session.
   */
  lemma OnlyTheCurrentSessionCondemns(a: Account, run: seq<Event>)
    requires Initial(a) && Possible(a, run)
    ensures var b := After(a, run);
            && (b.disabled ==> b.disabledOn == b.session)
            && (b.pending.Some? ==> b.disabled && b.pending.value == b.session)
  {
    InitialIsSound(a);
    RunKeepsInv(a, run);
  }

  /**
   In every interleaving, what is stored as a session's context was made by responses
   to that session: a late response never gets into the context of a newer login.
   */
  lemma StoredContextIsOfStoredSession(a: Account, run: seq<Event>)
    requires Initial(a) && Possible(a, run)
    ensures After(a, run).row.context <= {After(a, run).row.session}
  {
    InitialIsSound(a);
    RunKeepsInv(a, run);
  }

  /** When a session is replaced, no older death is still to be recorded or written. */
  lemma NothingPendingAcrossReplacement(a: Account, run: seq<Event>, fate: Fate)
    requires Initial(a) && Possible(a, run) && Enabled(After(a, run), ReplaceSession(fate))
    ensures var b := After(a, run); b.pending.None? && b.requests == map[] && b.writes == 0
  {
    InitialIsSound(a);
    RunKeepsInv(a, run);
  }

  /**
   In every run a stored death was seen on the session in memory: that is what the
   invariant gives. So it is a death of the stored session if and only if memory and
   database agree on the session, which only follows from it.
   */
  lemma StoredDeathIsExact(a: Account, run: seq<Event>)
    requires Initial(a) && Possible(a, run) && After(a, run).row.dead
    ensures var b := After(a, run);
            b.row.seenOn == b.session && (b.row.seenOn == b.row.session <==> b.row.session == b.session)
  {
    InitialIsSound(a);
    RunKeepsInv(a, run);
  }

  /** While every session write that reported an error really failed, they do agree. */
  lemma StoredDeathIsOfStoredSession(a: Account, run: seq<Event>)
    requires Initial(a) && Possible(a, run) && forall i :: 0 <= i < |run| ==> Certain(run[i])
    ensures var b := After(a, run); b.row.dead ==> b.row.seenOn == b.row.session == b.session
  {
    InitialIsSound(a);
    RunKeepsInv(a, run);
  }

  /**
   After a revival is published, whatever condemns the account, in any longer run,
   was seen on the new session or a later one.
   */
  lemma RevivedStaysUntilNewFailure(a: Account, before: seq<Event>, run: seq<Event>)
    requires Initial(a) && Possible(a, before) && Enabled(After(a, before), PublishReplaced)
    requires Possible(Step(After(a, before), PublishReplaced), run)
    ensures var b := Step(After(a, before), PublishReplaced);
            var c := After(b, run);
            && !b.disabled && !b.row.dead && b.pending.None?
            && (c.disabled ==> c.disabledOn >= b.session)
            && (c.row.dead ==> c.row.seenOn >= b.session)
  {
    InitialIsSound(a);
    RunKeepsInv(a, before);
    var b := After(a, before);
    StepKeepsInv(b, PublishReplaced);
    RunKeepsInv(Step(b, PublishReplaced), run);
  }

  /** `run` leads from `a` to `b`. */
  ghost predicate Leads(a: Account, run: seq<Event>, b: Account) {
    Possible(a, run) && After(a, run) == b
  }

  lemma Extend(a: Account, e: Event, a': Account, rest: seq<Event>, b: Account)
    requires Enabled(a, e) && Step(a, e) == a' && Leads(a', rest, b)
    ensures Leads(a, [e] + rest, b)
  {
    assert ([e] + rest)[1..] == rest;
  }

  /** The account after a replacement that reported an error although it took effect. */
  function Drifted(a: Account): Account {
    a.(made := a.made + 1, row := Row(a.made + 1, false, 0, {a.made + 1}))
  }

  function Verified(a: Account): Account {
    a.(update := Some(Verifying), gate := ByUpdate)
  }

  lemma UpdateStarts(a: Account, run: seq<Event>, b: Account)
    requires a.update.None? && a.gate.Free? && a.requests == map[] && a.writes == 0 && a.pending.None?
    requires Leads(Verified(a), run, b)
    ensures Leads(a, [BeginUpdate] + ([Drain] + ([FlushedAll] + ([EnterGate] + run))), b)
  {
    Extend(a.(update := Some(Flushed)), EnterGate, Verified(a), run, b);
    Extend(a.(update := Some(Drained)), FlushedAll, a.(update := Some(Flushed)), [EnterGate] + run, b);
    Extend(a.(update := Some(Waiting)), Drain, a.(update := Some(Drained)), [FlushedAll] + ([EnterGate] + run), b);
    Extend(a, BeginUpdate, a.(update := Some(Waiting)), [Drain] + ([FlushedAll] + ([EnterGate] + run)), b);
  }

  lemma AmbiguityDrifts(a: Account, rest: seq<Event>, b: Account) returns (run: seq<Event>)
    requires a.update.None? && a.gate.Free? && a.requests == map[] && a.writes == 0 && a.pending.None?
    requires Leads(Drifted(a), rest, b)
    ensures Leads(a, run, b)
  {
    Extend(Verified(a), ReplaceSession(Ambiguous), Drifted(a), rest, b);
    run := [ReplaceSession(Ambiguous)] + rest;
    UpdateStarts(a, run, b);
    run := [BeginUpdate] + ([Drain] + ([FlushedAll] + ([EnterGate] + run)));
  }

  /** The account with request 0 in `r`, inside the gate or not. */
  function With(a: Account, r: Request, inside: bool): Account {
    a.(requests := map[0 := r], gate := if inside then ByRequest(0) else a.gate)
  }

  /** The account once request 0 was refused for its session. */
  function Refused(a: Account, r: Request): Account {
    With(a, r, true).(disabled := true, disabledOn := a.session, writes := 1)
  }

  /** And once that was stored. */
  function Condemned(a: Account): Account {
    Refused(a, Recorded).(row := a.row.(dead := true, seenOn := a.session))
  }

  lemma RefusalIsStored(a: Account) returns (run: seq<Event>)
    requires a.writes == 0 && a.pending.None?
    ensures Leads(With(a, Guarded(a.session), true), run, Condemned(a))
  {
    var recorded := Refused(a, Recorded).(pending := Some(a.session));
    assert Leads(Condemned(a), [], Condemned(a));
    Extend(recorded, FlushWrites(Done), Condemned(a), [], Condemned(a));
    run := [FlushWrites(Done)] + [];
    Extend(Refused(a, Marking(a.session)), Record(0), recorded, run, Condemned(a));
    run := [Record(0)] + run;
    Extend(With(a, Guarded(a.session), true), Apply(0), Refused(a, Marking(a.session)), run, Condemned(a));
    run := [Apply(0)] + run;
  }

  lemma OldFailureIsStored(a: Account) returns (run: seq<Event>)
    requires a.requests == map[] && a.writes == 0 && a.gate.Free? && a.update.None? && a.pending.None? && !a.disabled
    ensures Leads(a, run, Condemned(a))
  {
    var s, end := a.session, Condemned(a);
    run := RefusalIsStored(a);
    Extend(With(a, Answered(s, true), false), Guard(0), With(a, Guarded(s), true), run, end);
    run := [Guard(0)] + run;
    Extend(With(a, Looking(s, a.jar), false), Answer(0, true), With(a, Answered(s, true), false), run, end);
    run := [Answer(0, true)] + run;
    Extend(With(a, Leased, false), Look(0), With(a, Looking(s, a.jar), false), run, end);
    run := [Look(0)] + run;
    Extend(a, Acquire(0), With(a, Leased, false), run, end);
    run := [Acquire(0)] + run;
  }

  /**
   A replacement that took effect but reported an error leaves memory on the old
   session; its later failure is then stored as the death of the new one.
   */
  lemma AmbiguousReplacementCanBeCondemned(a: Account)
    requires Initial(a) && !a.disabled
    ensures exists run :: Possible(a, run) && After(a, run).row.dead && After(a, run).row.seenOn != After(a, run).row.session
  {
    var rest := OldFailureIsStored(Drifted(a));
    var run := AmbiguityDrifts(a, rest, Condemned(Drifted(a)));
    assert Leads(a, run, Condemned(Drifted(a)));
  }

  // ----- What must happen ----------------------------------------------------------------------

  /** A death applied in memory is stored, recorded, or about to be; unless the database moved on to another session. */
  ghost predicate DeathKept(a: Account) {
    a.disabled ==>
      || (a.row.dead && a.row.seenOn == a.session) || a.pending == Some(a.session)
      || a.row.session != a.session || exists d :: d in a.requests && a.requests[d] == Marking(a.session)
  }

  lemma StepKeepsDeath(a: Account, e: Event)
    requires Inv(a) && Enabled(a, e) && DeathKept(a)
    ensures DeathKept(Step(a, e))
  {
    var b := Step(a, e);
    if Actor(e).Some? {
      assert RequestOk(a, Actor(e).value);
    }
    if e.Apply? && b.disabled && !a.disabled {
      assert b.requests[e.d] == Marking(b.session);
    }
    forall d | d in a.requests && a.requests[d] == Marking(a.session) && (Actor(e) != Some(d))
      ensures d in b.requests && b.requests[d] == Marking(a.session)
    {
      assert RequestOk(a, d);
    }
  }

  lemma {:induction false} RunKeepsDeath(a: Account, run: seq<Event>)
    requires Inv(a) && Possible(a, run) && DeathKept(a)
    ensures DeathKept(After(a, run))
    decreases |run|
  {
    if run != [] {
      StepKeepsDeath(a, run[0]);
      StepKeepsInv(a, run[0]);
      RunKeepsDeath(Step(a, run[0]), run[1..]);
    }
  }

  /**
   No death is forgotten, whatever writes fail: with no death waiting to be recorded
   or written, an account disabled in memory is stored as dead, of the session it was
   seen on, or an ambiguous replacement has left the database another session.
   */
  lemma DeathIsNotForgotten(a: Account, run: seq<Event>)
    requires Initial(a) && Possible(a, run)
    ensures var b := After(a, run);
            b.disabled && b.writes == 0 && b.pending.None? ==>
              (b.row.dead && b.row.seenOn == b.session) || b.row.session != b.session
  {
    InitialIsSound(a);
    RunKeepsDeath(a, run);
    RunKeepsInv(a, run);
    var b := After(a, run);
    if exists d :: d in b.requests && b.requests[d] == Marking(b.session) {
      var d :| d in b.requests && b.requests[d] == Marking(b.session);
      assert RequestOk(b, d);
    }
  }

  /** A death applies exactly to the session in memory; a late one changes nothing. */
  lemma LateDeathIsIgnored(a: Account, d: nat)
    requires Inv(a) && Enabled(a, Apply(d))
    ensures var b := Step(a, Apply(d));
            && (a.requests[d].session == a.session ==> b.disabled && b.requests[d] == Marking(a.session))
            && (a.requests[d].session != a.session ==> b.disabled == a.disabled && b.requests[d].Leaving? && b.gate.Free?)
            && b.row == a.row && b.pending == a.pending
  {
  }

  /** A saved context is stored exactly when the stored session is still the snapshot's; and the snapshot is all that responses filled the jar with. */
  lemma ContextIsStoredExactlyWhen(a: Account, d: nat, fate: Fate)
    requires Inv(a) && Enabled(a, TakeSnapshot(d))
    ensures var b := Step(a, TakeSnapshot(d));
            Enabled(b, SaveContext(d, fate))
            && var c := Step(b, SaveContext(d, fate));
               c.row.context == (if !fate.Lost? && a.row.session == a.session then JarOf(a, a.jar) else a.row.context)
               && c.row.session == a.row.session && c.row.dead == a.row.dead && c.session == a.session
  {
  }

  lemma UpdateEnds(a: Account) returns (run: seq<Event>, b: Account)
    requires a.update == Some(Verifying) && a.gate.ByUpdate?
    ensures Leads(a, run, b)
    ensures var s := a.made + 1;
            b == a.(made := s, session := s, jar := s, jars := a.jars[s := {s}], disabled := false, update := None, gate := Free, row := Row(s, false, 0, {s}))
  {
    var s := a.made + 1;
    var c := Step(a, ReplaceSession(Done));
    b := Step(c, PublishReplaced);
    assert Leads(b, [], b);
    Extend(c, PublishReplaced, b, [], b);
    Extend(a, ReplaceSession(Done), c, [PublishReplaced] + [], b);
    run := [ReplaceSession(Done)] + ([PublishReplaced] + []);
  }

  /** A verified update revives an account, dead or not: it ends enabled, on a new session that is stored alive. */
  lemma UpdateRevives(a: Account)
    requires Initial(a)
    ensures exists run :: Possible(a, run)
              && var b := After(a, run);
                 !b.disabled && !b.row.dead && b.session == b.row.session > a.session && b.requests == map[] && b.gate.Free?
  {
    var run, b := UpdateEnds(Verified(a));
    UpdateStarts(a, run, b);
    run := [BeginUpdate] + ([Drain] + ([FlushedAll] + ([EnterGate] + run)));
    assert Leads(a, run, b);
  }

  lemma RenewalEnds(a: Account) returns (run: seq<Event>, b: Account)
    requires a.requests == map[0 := Looking(a.session, a.jar)] && a.gate.Free? && !a.disabled && !a.row.dead
    ensures Leads(a, run, b)
    ensures var s := a.made + 1;
            b.session == b.row.session == s && !b.row.dead && !b.disabled && b.gate.Free? && b.requests == map[0 := Looking(s, s)]
  {
    var c := Step(a, Renew(0, true));
    var d := Step(c, SaveSession(0, Done));
    b := Step(d, PublishRenewed(0));
    assert Leads(b, [], b);
    Extend(d, PublishRenewed(0), b, [], b);
    Extend(c, SaveSession(0, Done), d, [PublishRenewed(0)] + [], b);
    run := [SaveSession(0, Done)] + ([PublishRenewed(0)] + []);
    Extend(a, Renew(0, true), c, run, b);
    run := [Renew(0, true)] + run;
  }

  /** A request whose session has expired can renew it: it goes on with a new session, which is stored. */
  lemma RenewalReplaces(a: Account)
    requires Initial(a) && !a.disabled
    ensures exists run :: Possible(a, run)
              && var b := After(a, run);
                 b.session == b.row.session > a.session && !b.disabled && b.requests == map[0 := Looking(b.session, b.session)]
  {
    var c := With(a, Looking(a.session, a.jar), false);
    var run, b := RenewalEnds(c);
    Extend(With(a, Leased, false), Look(0), c, run, b);
    Extend(a, Acquire(0), With(a, Leased, false), [Look(0)] + run, b);
    assert Leads(a, [Acquire(0)] + ([Look(0)] + run), b);
  }

  /** A response enters the jar its request was sent with, and so the snapshots of a session still in use; another session's jar stays as it is. */
  lemma ResponsesFillTheirJar(a: Account, d: nat, k: nat)
    requires Inv(a) && Enabled(a, Observe(d))
    ensures var b := Step(a, Observe(d));
            && JarOf(b, k) == (if k == a.requests[d].session then JarOf(a, k) + {k} else JarOf(a, k))
            && b == a.(jars := b.jars)
            && (a.requests[d].session == a.session ==> a.session in JarOf(b, b.jar))
  {
    assert RequestOk(a, d);
  }
}
