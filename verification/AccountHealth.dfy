/**
 Durable health of Instagram accounts: deaths and cooldowns reported while writes
 to the database fail, or succeed without saying so.
 */
module AccountHealth {
  import opened Common

  /** A stored account's health; deadline 0 is no deadline. */
  datatype Row = Row(dead: bool, reason: string, cooldown: nat)

  type Rows = map<string, Row>

  /** What becomes of one statement: `Ambiguous` took effect and reported an error. */
  datatype Fate = Done | Ambiguous | Lost

  datatype Health = Health(pending: map<string, string>, cooldowns: map<string, nat>, dirty: bool, rows: Rows)

  function Later(a: nat, b: nat): nat {
    if a < b then b else a
  }

  function PendingDeadline(h: Health, id: string): nat {
    if id in h.cooldowns then h.cooldowns[id] else 0
  }

  function StoredDeadline(h: Health, id: string): nat {
    if id in h.rows then h.rows[id].cooldown else 0
  }

  // ----- What is known of an account -----------------------------------------------------

  /** The later of the stored and the pending deadline. */
  function Deadline(h: Health, id: string): nat {
    Later(StoredDeadline(h, id), PendingDeadline(h, id))
  }

  predicate Dead(h: Health, id: string) {
    id in h.pending || (id in h.rows && h.rows[id].dead)
  }

  function Reason(h: Health, id: string): string {
    if id in h.pending then h.pending[id] else if id in h.rows then h.rows[id].reason else ""
  }

  ghost predicate Ok(h: Health) {
    !h.dirty ==> h.pending == map[] && h.cooldowns == map[]
  }

  // ----- The steps ---------------------------------------------------------------------------

  /** A report: a reason if the account is dead, a deadline if it must rest. */
  function Marked(h: Health, id: string, reason: string, until: nat): Health {
    if reason == "" && until == 0 then h
    else
      h.(pending := if reason != "" then h.pending[id := reason] else h.pending,
         cooldowns := if until > PendingDeadline(h, id) then h.cooldowns[id := until] else h.cooldowns,
         dirty := true)
  }

  function Forgotten<V>(m: map<string, V>, id: string): map<string, V> {
    map k | k in m && k != id :: m[k]
  }

  /** The row after a death was written, with the deadline known at that time. */
  function DeadRow(h: Health, id: string): Rows
    requires id in h.pending
  {
    if id in h.rows then h.rows[id := Row(true, h.pending[id], Deadline(h, id))] else h.rows
  }

  function RestingRow(h: Health, id: string): Rows {
    if id in h.rows then h.rows[id := h.rows[id].(cooldown := Deadline(h, id))] else h.rows
  }

  /** One death is written; it is forgotten only when the database said so for its one row. */
  function DeathWritten(h: Health, id: string, fate: Fate): Health
    requires id in h.pending
  {
    var rows := if fate.Lost? then h.rows else DeadRow(h, id);
    if fate.Done? && id in h.rows then h.(pending := Forgotten(h.pending, id), cooldowns := Forgotten(h.cooldowns, id), rows := rows)
    else h.(rows := rows)
  }

  function CooldownWritten(h: Health, id: string, fate: Fate): Health {
    var rows := if fate.Lost? then h.rows else RestingRow(h, id);
    if fate.Done? && id in h.rows then h.(cooldowns := Forgotten(h.cooldowns, id), rows := rows) else h.(rows := rows)
  }

  // ----- What no write changes -------------------------------------------------------------------

  /** Everything known of every account stays known, and no row gets better. */
  ghost predicate Keeps(h: Health, g: Health) {
    && g.rows.Keys == h.rows.Keys
    && (forall id: string {:trigger Deadline(g, id)} :: Deadline(g, id) == Deadline(h, id))
    && (forall id: string {:trigger Dead(g, id)} :: Dead(g, id) == Dead(h, id))
    && (forall id: string {:trigger Reason(g, id)} :: Dead(h, id) ==> Reason(g, id) == Reason(h, id))
    && (forall id <- h.rows :: h.rows[id].cooldown <= g.rows[id].cooldown && (h.rows[id].dead ==> g.rows[id].dead))
  }

  lemma DeathKeeps(h: Health, id: string, fate: Fate)
    requires id in h.pending
    ensures Keeps(h, DeathWritten(h, id, fate))
  {
  }

  lemma CooldownKeeps(h: Health, id: string, fate: Fate)
    requires id in h.cooldowns
    ensures Keeps(h, CooldownWritten(h, id, fate))
  {
  }

  lemma CleanKeeps(h: Health, g: Health)
    requires Keeps(h, g)
    ensures Keeps(h, g.(dirty := false))
  {
    var c := g.(dirty := false);
    forall id: string
      ensures Deadline(c, id) == Deadline(h, id) && Dead(c, id) == Dead(h, id) && (Dead(h, id) ==> Reason(c, id) == Reason(h, id))
    {
      assert Deadline(g, id) == Deadline(h, id) && Dead(g, id) == Dead(h, id);
      assert Dead(h, id) ==> Reason(g, id) == Reason(h, id);
    }
  }

  lemma KeepsOn(f: Health, g: Health, h: Health)
    requires Keeps(f, g) && Keeps(g, h)
    ensures Keeps(f, h)
  {
    forall id: string
      ensures Deadline(h, id) == Deadline(f, id) && Dead(h, id) == Dead(f, id) && (Dead(f, id) ==> Reason(h, id) == Reason(f, id))
    {
      assert Deadline(g, id) == Deadline(f, id) && Dead(g, id) == Dead(f, id);
      assert Dead(f, id) ==> Reason(g, id) == Reason(f, id);
    }
  }

  /** Enough statements succeed, and every account has its row. */
  ghost predicate Suffices(h: Health, fates: seq<Fate>) {
    && (forall f <- fates :: f.Done?)
    && |h.pending| + |h.cooldowns| <= |fates|
    && h.pending.Keys + h.cooldowns.Keys <= h.rows.Keys
  }

  lemma ForgottenCounts<V>(m: map<string, V>, id: string)
    ensures Forgotten(m, id).Keys == m.Keys - {id}
    ensures |Forgotten(m, id)| == |m| - if id in m then 1 else 0
  {
    assert Forgotten(m, id).Keys == m.Keys - {id};
    assert |m| == |m.Keys| && |Forgotten(m, id)| == |Forgotten(m, id).Keys|;
    if id !in m {
      assert m.Keys - {id} == m.Keys;
    }
  }

  lemma DeathSuffices(h: Health, id: string, fates: seq<Fate>)
    requires id in h.pending
    ensures Suffices(h, fates) ==> fates != [] && fates[0].Done? && id in h.rows && Suffices(DeathWritten(h, id, Done), fates[1..])
  {
    ForgottenCounts(h.pending, id);
    ForgottenCounts(h.cooldowns, id);
  }

  lemma CooldownSuffices(h: Health, id: string, fates: seq<Fate>)
    requires id in h.cooldowns
    ensures Suffices(h, fates) ==> fates != [] && fates[0].Done? && id in h.rows && Suffices(CooldownWritten(h, id, Done), fates[1..])
  {
    ForgottenCounts(h.cooldowns, id);
  }

  /** The store, with the database behind it. */
  class Store {
    var pending: map<string, string>
    var cooldowns: map<string, nat>
    var dirty: bool
    var rows: Rows

    function View(): Health
      reads this
    {
      Health(pending, cooldowns, dirty, rows)
    }

    constructor (rows: Rows)
      ensures View() == Health(map[], map[], false, rows)
    {
      pending, cooldowns, dirty, this.rows := map[], map[], false, rows;
    }

    /** `connected` says whether a connection could be had, `fates` what becomes of each statement. */
    method MarkHealth(id: string, reason: string, until: nat, connected: bool, fates: seq<Fate>) returns (ok: bool)
      requires Ok(View())
      modifies this
      ensures Ok(View()) && Keeps(Marked(old(View()), id, reason, until), View())
      ensures ok && (reason != "" || until > 0) ==> View().(rows := map[]) == Health(map[], map[], false, map[])
      ensures !ok ==> dirty
    {
      if reason == "" && until == 0 {
        return true;
      }
      if reason != "" {
        pending := pending[id := reason];
      }
      if until > (if id in cooldowns then cooldowns[id] else 0) {
        cooldowns := cooldowns[id := until];
      }
      dirty := true;
      ok := Flush(connected, fates);
    }

    /** Writes everything pending; what fails stays pending. */
    method Flush(connected: bool, fates: seq<Fate>) returns (ok: bool)
      requires Ok(View())
      modifies this
      ensures Ok(View()) && Keeps(old(View()), View())
      ensures ok ==> !dirty
      ensures !ok ==> dirty
      ensures connected && Suffices(old(View()), fates) ==> ok
    {
      if !dirty {
        return true;
      }
      if !connected {
        return false;
      }
      ghost var h := View();
      var rest: seq<Fate>;
      ok, rest := FlushDeaths(fates);
      ghost var g := View();
      if ok {
        ok := FlushCooldowns(rest);
        KeepsOn(h, g, View());
        if ok {
          CleanKeeps(h, View());
          dirty := false;
        }
      }
    }

    /** The deaths, each with the deadline pending for it; `rest` are the statements left over. */
    method FlushDeaths(fates: seq<Fate>) returns (ok: bool, rest: seq<Fate>)
      modifies `pending, `cooldowns, `rows
      ensures Keeps(old(View()), View())
      ensures ok ==> pending == map[]
      ensures Suffices(old(View()), fates) ==> ok && Suffices(View(), rest)
    {
      rest := fates;
      while pending != map[]
        invariant Keeps(old(View()), View())
        invariant Suffices(old(View()), fates) ==> Suffices(View(), rest)
        decreases pending.Keys
      {
        var id :| id in pending;
        ghost var h := View();
        var fate := if rest != [] then rest[0] else Lost;
        DeathKeeps(h, id, fate);
        KeepsOn(old(View()), h, DeathWritten(h, id, fate));
        DeathSuffices(h, id, rest);
        rest := if rest != [] then rest[1..] else rest;
        var affected := id in rows;
        if !fate.Lost? && affected {
          var until := if id in cooldowns then cooldowns[id] else 0;
          rows := rows[id := Row(true, pending[id], Later(rows[id].cooldown, until))];
        }
        if !fate.Done? || !affected {
          return false, rest;
        }
        pending := Forgotten(pending, id);
        cooldowns := Forgotten(cooldowns, id);
        assert View() == DeathWritten(h, id, fate);
      }
      return true, rest;
    }

    method FlushCooldowns(fates: seq<Fate>) returns (ok: bool)
      requires pending == map[]
      modifies `cooldowns, `rows
      ensures Keeps(old(View()), View())
      ensures ok ==> cooldowns == map[]
      ensures Suffices(old(View()), fates) ==> ok
    {
      var rest := fates;
      while cooldowns != map[]
        invariant Keeps(old(View()), View())
        invariant Suffices(old(View()), fates) ==> Suffices(View(), rest)
        decreases cooldowns.Keys
      {
        var id :| id in cooldowns;
        ghost var h := View();
        var fate := if rest != [] then rest[0] else Lost;
        CooldownKeeps(h, id, fate);
        KeepsOn(old(View()), h, CooldownWritten(h, id, fate));
        CooldownSuffices(h, id, rest);
        rest := if rest != [] then rest[1..] else rest;
        var affected := id in rows;
        if !fate.Lost? && affected {
          rows := rows[id := rows[id].(cooldown := Later(rows[id].cooldown, cooldowns[id]))];
        }
        if !fate.Done? || !affected {
          return false;
        }
        cooldowns := Forgotten(cooldowns, id);
        assert View() == CooldownWritten(h, id, fate);
      }
      return true;
    }
  }

  // ----- Runs ------------------------------------------------------------------------------------

  datatype Event =
    | Mark(id: string, reason: string, until: nat)
    | WriteDeath(id: string, fate: Fate)
    | WriteCooldown(id: string, fate: Fate)
    | Clean

  predicate Enabled(h: Health, e: Event) {
    match e
    case Mark(_, _, _) => true
    case WriteDeath(id, _) => id in h.pending
    case WriteCooldown(id, _) => id in h.cooldowns
    case Clean => h.pending == map[] && h.cooldowns == map[]
  }

  function Step(h: Health, e: Event): Health
    requires Enabled(h, e)
  {
    match e
    case Mark(id, reason, until) => Marked(h, id, reason, until)
    case WriteDeath(id, fate) => DeathWritten(h, id, fate)
    case WriteCooldown(id, fate) => CooldownWritten(h, id, fate)
    case Clean => h.(dirty := false)
  }

  ghost predicate Possible(h: Health, run: seq<Event>)
    decreases |run|
  {
    run != [] ==> Enabled(h, run[0]) && Possible(Step(h, run[0]), run[1..])
  }

  ghost function After(h: Health, run: seq<Event>): Health
    requires Possible(h, run)
    decreases |run|
  {
    if run == [] then h else After(Step(h, run[0]), run[1..])
  }

  /** The latest deadline reported for `id` along a run. */
  ghost function LatestReported(run: seq<Event>, id: string): nat
    decreases |run|
  {
    if run == [] then 0
    else Later(if run[0].Mark? && run[0].id == id then run[0].until else 0, LatestReported(run[1..], id))
  }

  ghost predicate ReportedDead(run: seq<Event>, id: string) {
    exists i :: 0 <= i < |run| && run[i].Mark? && run[i].id == id && run[i].reason != ""
  }

  lemma StepReports(h: Health, e: Event, id: string)
    requires Ok(h) && Enabled(h, e)
    ensures Ok(Step(h, e))
    ensures Deadline(Step(h, e), id) == Later(Deadline(h, id), if e.Mark? && e.id == id then e.until else 0)
    ensures Dead(Step(h, e), id) <==> Dead(h, id) || (e.Mark? && e.id == id && e.reason != "")
    ensures StoredDeadline(h, id) <= StoredDeadline(Step(h, e), id)
  {
    if e.WriteDeath? {
      DeathKeeps(h, e.id, e.fate);
    } else if e.WriteCooldown? {
      CooldownKeeps(h, e.id, e.fate);
    }
  }

  /**
   Health is never lost or shortened: after any reports and any writes, failed,
   ambiguous or done, what the database and memory hold together is exactly what
   was known at first and what was reported since.
   */
  lemma {:induction false} HealthIsKept(h: Health, run: seq<Event>, id: string)
    requires Ok(h) && Possible(h, run)
    ensures Ok(After(h, run))
    ensures Deadline(After(h, run), id) == Later(Deadline(h, id), LatestReported(run, id))
    ensures Dead(After(h, run), id) <==> Dead(h, id) || ReportedDead(run, id)
    ensures StoredDeadline(h, id) <= StoredDeadline(After(h, run), id)
    decreases |run|
  {
    if run != [] {
      var u := Step(h, run[0]);
      StepReports(h, run[0], id);
      HealthIsKept(u, run[1..], id);
      ReportedSplits(run, id);
    }
  }

  lemma ReportedSplits(run: seq<Event>, id: string)
    requires run != []
    ensures ReportedDead(run, id) <==> (run[0].Mark? && run[0].id == id && run[0].reason != "") || ReportedDead(run[1..], id)
  {
    if ReportedDead(run[1..], id) {
      var i :| 0 <= i < |run[1..]| && run[1..][i].Mark? && run[1..][i].id == id && run[1..][i].reason != "";
      assert run[i + 1] == run[1..][i];
    }
    if ReportedDead(run, id) {
      var i :| 0 <= i < |run| && run[i].Mark? && run[i].id == id && run[i].reason != "";
      assert i > 0 ==> run[1..][i - 1] == run[i];
    }
  }

  /** When nothing is marked dirty the database alone holds it all. */
  lemma CleanIsStored(h: Health, run: seq<Event>, id: string)
    requires Ok(h) && Possible(h, run) && !After(h, run).dirty
    ensures var g := After(h, run);
            && StoredDeadline(g, id) == Later(Deadline(h, id), LatestReported(run, id))
            && ((id in g.rows && g.rows[id].dead) <==> Dead(h, id) || ReportedDead(run, id))
  {
    HealthIsKept(h, run, id);
  }
}
