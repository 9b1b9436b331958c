/**
 Admission of new requests while account health is being stored: responses report
 deaths and deadlines, each report is stored by its own request, and no request is
 admitted to a freely chosen account before all of that has reached the database.
 */
module Admission {
  import opened Common
  import opened AccountHealth

  /** An account in memory, where a report shows at once. */
  datatype Known = Known(disabled: bool, cooldown: nat)

  /** A report whose request has not finished storing it; `marked` once the store took it. */
  datatype Report = Report(id: string, reason: string, until: nat, marked: bool)

  datatype World = World(accounts: map<string, Known>, health: Health, reports: map<nat, Report>, writes: nat)

  datatype Step =
    | Respond(c: nat, id: string, reason: string, until: nat)
    | MarkHealth(c: nat)
    | Write(e: Event)                       // one statement of a flush, or its end
    | Return(c: nat)                        // the report's storing ended, well or not

  /** A new request may be given any account. */
  predicate Admits(w: World) {
    w.writes == 0 && !w.health.dirty
  }

  predicate Possible(w: World, s: Step) {
    match s
    case Respond(c, id, reason, until) => c !in w.reports && id in w.accounts
    case MarkHealth(c) => c in w.reports && !w.reports[c].marked
    case Write(e) => !e.Mark? && AccountHealth.Enabled(w.health, e)
    case Return(c) => c in w.reports && w.reports[c].marked
  }

  /** What a response leaves to be stored: a death, and a deadline if it is later than the known one. */
  function Deferred(k: Known, until: nat): nat {
    if until > k.cooldown then until else 0
  }

  function Apply(w: World, s: Step): World
    requires Possible(w, s)
  {
    match s
    case Respond(c, id, reason, until) =>
      var k := w.accounts[id];
      var u := w.(accounts := w.accounts[id := Known(k.disabled || reason != "", Later(k.cooldown, until))]);
      if reason == "" && Deferred(k, until) == 0 then u
      else u.(reports := w.reports[c := Report(id, reason, Deferred(k, until), false)], writes := w.writes + 1)
    case MarkHealth(c) =>
      var r := w.reports[c];
      w.(health := Marked(w.health, r.id, r.reason, r.until), reports := w.reports[c := r.(marked := true)])
    case Write(e) => w.(health := AccountHealth.Step(w.health, e))
    case Return(c) => w.(reports := Without(w.reports, c), writes := if w.writes > 0 then w.writes - 1 else 0)
  }

  function Without(m: map<nat, Report>, c: nat): map<nat, Report> {
    map d | d in m && d != c :: m[d]
  }

  // ----- The invariant ------------------------------------------------------------------

  /** A report the store has not taken yet brings the death, or the deadline. */
  ghost predicate Brings(w: World, c: nat, id: string, until: nat, dead: bool) {
    && c in w.reports && w.reports[c].id == id && !w.reports[c].marked
    && (if dead then w.reports[c].reason != "" else w.reports[c].until == until)
  }

  /** What memory knows of an account is what the store knows, or a report not yet taken brings it. */
  ghost predicate AccountOk(w: World, id: string) {
    id in w.accounts ==>
      var k := w.accounts[id];
      && Deadline(w.health, id) <= k.cooldown
      && (Dead(w.health, id) ==> k.disabled)
      && (Deadline(w.health, id) == k.cooldown || exists c :: Brings(w, c, id, k.cooldown, false))
      && (k.disabled ==> Dead(w.health, id) || exists c :: Brings(w, c, id, 0, true))
  }

  ghost predicate ReportOk(w: World, c: nat) {
    c in w.reports ==>
      var r := w.reports[c];
      && r.id in w.accounts && r.until <= w.accounts[r.id].cooldown && (r.reason != "" ==> w.accounts[r.id].disabled)
      && (r.reason != "" || r.until > 0)
  }

  ghost predicate Inv(w: World) {
    && Ok(w.health)
    && w.writes == |w.reports|
    && (forall id: string {:trigger AccountOk(w, id)} :: AccountOk(w, id))
    && (forall c: nat {:trigger ReportOk(w, c)} :: ReportOk(w, c))
  }

  /** Memory was loaded from the database, and nothing is under way. */
  ghost predicate Initial(w: World) {
    && w.reports == map[] && w.writes == 0
    && w.health == Health(map[], map[], false, w.health.rows)
    && forall id <- w.accounts :: id in w.health.rows
         && w.accounts[id] == Known(w.health.rows[id].dead, w.health.rows[id].cooldown)
  }

  lemma InitialIsSound(w: World)
    requires Initial(w)
    ensures Inv(w)
  {
  }

  lemma RespondKeepsInv(w: World, c: nat, id: string, reason: string, until: nat)
    requires Inv(w) && Possible(w, Respond(c, id, reason, until))
    ensures Inv(Apply(w, Respond(c, id, reason, until)))
  {
    var v := Apply(w, Respond(c, id, reason, until));
    forall x: string ensures AccountOk(v, x) {
      assert AccountOk(w, x);
      if x in w.accounts {
        forall d, n, dead | Brings(w, d, x, n, dead) ensures Brings(v, d, x, n, dead) {
        }
        if x == id && reason != "" {
          assert Brings(v, c, x, 0, true);
        }
        if x == id && until > w.accounts[id].cooldown {
          assert Brings(v, c, x, until, false);
        }
      }
    }
    forall d: nat ensures ReportOk(v, d) {
      assert ReportOk(w, d);
    }
  }

  lemma MarkKeepsInv(w: World, c: nat)
    requires Inv(w) && Possible(w, MarkHealth(c))
    ensures Inv(Apply(w, MarkHealth(c)))
  {
    var v := Apply(w, MarkHealth(c));
    var r := w.reports[c];
    assert ReportOk(w, c);
    forall x: string ensures AccountOk(v, x) {
      assert AccountOk(w, x);
      StepReports(w.health, Mark(r.id, r.reason, r.until), x);
      forall d, n, dead | d != c && Brings(w, d, x, n, dead) ensures Brings(v, d, x, n, dead) {
      }
    }
    forall d: nat ensures ReportOk(v, d) {
      assert ReportOk(w, d);
    }
  }

  lemma WriteKeepsInv(w: World, e: Event)
    requires Inv(w) && Possible(w, Write(e))
    ensures Inv(Apply(w, Write(e)))
  {
    var v := Apply(w, Write(e));
    StepReports(w.health, e, "");
    forall x: string ensures AccountOk(v, x) {
      assert AccountOk(w, x);
      StepReports(w.health, e, x);
      forall d, n, dead | Brings(w, d, x, n, dead) ensures Brings(v, d, x, n, dead) {
      }
    }
    forall d: nat ensures ReportOk(v, d) {
      assert ReportOk(w, d);
    }
  }

  lemma ReturnKeepsInv(w: World, c: nat)
    requires Inv(w) && Possible(w, Return(c))
    ensures Inv(Apply(w, Return(c)))
  {
    var v := Apply(w, Return(c));
    assert v.reports.Keys == w.reports.Keys - {c};
    forall x: string ensures AccountOk(v, x) {
      assert AccountOk(w, x);
      forall d, n, dead | Brings(w, d, x, n, dead) ensures Brings(v, d, x, n, dead) {
      }
    }
    forall d: nat ensures ReportOk(v, d) {
      assert ReportOk(w, d);
    }
  }

  lemma StepKeepsInv(w: World, s: Step)
    requires Inv(w) && Possible(w, s)
    ensures Inv(Apply(w, s))
  {
    match s
    case Respond(c, id, reason, until) => RespondKeepsInv(w, c, id, reason, until);
    case MarkHealth(c) => MarkKeepsInv(w, c);
    case Write(e) => WriteKeepsInv(w, e);
    case Return(c) => ReturnKeepsInv(w, c);
  }

  // ----- Runs -----------------------------------------------------------------------------

  ghost predicate PossibleRun(w: World, run: seq<Step>)
    decreases |run|
  {
    run != [] ==> Possible(w, run[0]) && PossibleRun(Apply(w, run[0]), run[1..])
  }

  ghost function After(w: World, run: seq<Step>): World
    requires PossibleRun(w, run)
    decreases |run|
  {
    if run == [] then w else After(Apply(w, run[0]), run[1..])
  }

  /** Memory keeps at least what responses reported. */
  ghost predicate Knows(w: World, s: Step) {
    s.Respond? ==>
      s.id in w.accounts && s.until <= w.accounts[s.id].cooldown && (s.reason != "" ==> w.accounts[s.id].disabled)
  }

  lemma StepKeepsKnowledge(w: World, s: Step, t: Step)
    requires Possible(w, s) && (Knows(w, t) || t == s)
    ensures Knows(Apply(w, s), t)
  {
  }

  lemma {:induction false} RunKeepsKnowledge(w: World, run: seq<Step>, t: Step)
    requires Inv(w) && PossibleRun(w, run) && (Knows(w, t) || t in run)
    ensures Inv(After(w, run)) && Knows(After(w, run), t)
    decreases |run|
  {
    if run != [] {
      StepKeepsInv(w, run[0]);
      if Knows(w, t) || t == run[0] {
        StepKeepsKnowledge(w, run[0], t);
      }
      RunKeepsKnowledge(Apply(w, run[0]), run[1..], t);
    }
  }

  /** When requests are admitted, the database alone knows of every account what memory knows. */
  lemma AdmittedIsStored(w: World, id: string)
    requires Inv(w) && Admits(w) && id in w.accounts
    ensures StoredDeadline(w.health, id) == w.accounts[id].cooldown
    ensures w.accounts[id].disabled <==> id in w.health.rows && w.health.rows[id].dead
  {
    assert AccountOk(w, id);
    assert w.reports == map[];
  }

  /**
   However responses, statements and returns interleave, and whichever writes fail, a
   request is admitted to a freely chosen account only once every death and every
   deadline that any earlier response reported is in the database.
   */
  lemma AdmissionWaitsForHealth(w: World, run: seq<Step>, s: Step)
    requires Initial(w) && PossibleRun(w, run) && s in run && s.Respond?
    ensures var v := After(w, run);
            Admits(v) ==>
              && (s.reason != "" ==> s.id in v.health.rows && v.health.rows[s.id].dead)
              && s.until <= StoredDeadline(v.health, s.id)
  {
    InitialIsSound(w);
    RunKeepsKnowledge(w, run, s);
    var v := After(w, run);
    if Admits(v) {
      AdmittedIsStored(v, s.id);
    }
  }

  // ----- Admission comes back ---------------------------------------------------------------

  /** The reports the store has not taken yet. */
  ghost function Unmarked(w: World): set<nat> {
    set c | c in w.reports && !w.reports[c].marked
  }

  /** Every account has its row. */
  ghost predicate HaveRows(w: World) {
    w.accounts.Keys + w.health.pending.Keys + w.health.cooldowns.Keys <= w.health.rows.Keys
  }

  lemma FirstOf(w: World, s: Step, rest: seq<Step>)
    requires Possible(w, s) && PossibleRun(Apply(w, s), rest)
    ensures PossibleRun(w, [s] + rest) && After(w, [s] + rest) == After(Apply(w, s), rest)
  {
    assert ([s] + rest)[1..] == rest;
  }

  /** The next step towards admission: take a report, write what is pending, then let the requests return. */
  ghost predicate Helps(w: World, s: Step) {
    match s
    case Respond(_, _, _, _) => false
    case MarkHealth(c) => true
    case Write(WriteDeath(id, fate)) => fate.Done? && Unmarked(w) == {}
    case Write(WriteCooldown(id, fate)) => fate.Done? && Unmarked(w) == {} && w.health.pending == map[]
    case Write(Clean) => Unmarked(w) == {} && w.health.dirty
    case Write(_) => false
    case Return(_) => Unmarked(w) == {} && !w.health.dirty
  }

  lemma SomethingHelps(w: World) returns (s: Step)
    requires Inv(w) && !Admits(w)
    ensures Possible(w, s) && Helps(w, s)
  {
    if Unmarked(w) != {} {
      var c :| c in Unmarked(w);
      s := MarkHealth(c);
    } else if w.health.pending != map[] {
      var id :| id in w.health.pending;
      s := Write(WriteDeath(id, Done));
    } else if w.health.cooldowns != map[] {
      var id :| id in w.health.cooldowns;
      s := Write(WriteCooldown(id, Done));
    } else if w.health.dirty {
      s := Write(Clean);
    } else {
      assert w.reports != map[];
      var c :| c in w.reports;
      assert c !in Unmarked(w);
      s := Return(c);
    }
  }

  lemma MarkingBringsCloser(w: World, c: nat)
    requires Inv(w) && HaveRows(w) && Possible(w, MarkHealth(c))
    ensures HaveRows(Apply(w, MarkHealth(c))) && |Unmarked(Apply(w, MarkHealth(c)))| < |Unmarked(w)|
  {
    assert ReportOk(w, c);
    assert Unmarked(Apply(w, MarkHealth(c))) == Unmarked(w) - {c} && c in Unmarked(w);
  }

  lemma WritingBringsCloser(w: World, e: Event)
    requires HaveRows(w) && Possible(w, Write(e)) && Helps(w, Write(e))
    ensures var v := Apply(w, Write(e));
            && HaveRows(v) && v.reports == w.reports && Unmarked(v) == Unmarked(w)
            && (e.WriteDeath? ==> |v.health.pending| < |w.health.pending|)
            && (e.WriteCooldown? ==> v.health.pending == w.health.pending && |v.health.cooldowns| < |w.health.cooldowns|)
            && (e.Clean? ==> v.health == w.health.(dirty := false))
  {
    if e.WriteDeath? {
      ForgottenCounts(w.health.pending, e.id);
      ForgottenCounts(w.health.cooldowns, e.id);
    } else if e.WriteCooldown? {
      ForgottenCounts(w.health.cooldowns, e.id);
    }
  }

  lemma ReturningBringsCloser(w: World, c: nat)
    requires HaveRows(w) && Possible(w, Return(c)) && Helps(w, Return(c))
    ensures var v := Apply(w, Return(c));
            HaveRows(v) && Unmarked(v) == {} && v.health == w.health && |v.reports| < |w.reports|
  {
    var v := Apply(w, Return(c));
    assert v.reports.Keys == w.reports.Keys - {c};
    assert |v.reports| == |v.reports.Keys| && |w.reports| == |w.reports.Keys|;
    forall d ensures d !in Unmarked(v) {
      assert d !in Unmarked(w);
    }
  }

  /**
   From every state there is a run to admission, if statements succeed again and
   every account has its row: nothing that was reported keeps requests out for good.
   */
  lemma {:induction false} AdmissionComesBack(w: World) returns (run: seq<Step>)
    requires Inv(w) && HaveRows(w)
    ensures PossibleRun(w, run) && Admits(After(w, run))
    decreases |Unmarked(w)|, |w.health.pending|, |w.health.cooldowns|, if w.health.dirty then 1 else 0, |w.reports|
  {
    if Admits(w) {
      run := [];
    } else {
      var s := SomethingHelps(w);
      StepKeepsInv(w, s);
      match s {
        case MarkHealth(c) => MarkingBringsCloser(w, c);
        case Write(e) => WritingBringsCloser(w, e);
        case Return(c) => ReturningBringsCloser(w, c);
      }
      var rest := AdmissionComesBack(Apply(w, s));
      FirstOf(w, s, rest);
      run := [s] + rest;
    }
  }
}
