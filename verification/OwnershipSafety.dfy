/**
 What the ownership protocol guarantees over every run. Each theorem starts from
 an initial world and speaks of every world that any run reaches.
 */
module OwnershipSafety {
  import opened Common
  import opened WriteBehind
  import opened Ownership

  // ----- Fencing ----------------------------------------------------------------

  /** A save can become visible only on the lock's backend, while the stored token is its process's own. */
  lemma CommitIsFenced(w: World, run: seq<Event>, b: Backend)
    requires Initial(w) && Possible(w, run) && Enabled(After(w, run), ServerCommit(b))
    ensures var v := After(w, run);
            && v.db.lock == Some(b)
            && v.db.live[b].proc in v.procs
            && (v.db.live[b].work.Saving? ==> v.db.token.Some? && v.db.token == v.procs[v.db.live[b].proc].token)
  {
    Reachable(w, run);
    var v := After(w, run);
    assert ServerOk(v, b) && PhaseOk(v.db, v.procs[v.db.live[b].proc]);
  }

  /** Two processes that both accept work on living connections are one process. */
  lemma OneLivingOwner(w: World, run: seq<Event>, p: Proc, q: Proc)
    requires Initial(w) && Possible(w, run)
    requires p in After(w, run).procs && q in After(w, run).procs
    requires var v := After(w, run);
             && v.procs[p].link.Up? && v.procs[p].link.b in v.db.live
             && v.procs[q].link.Up? && v.procs[q].link.b in v.db.live
    ensures p == q
  {
    Reachable(w, run);
    var v := After(w, run);
    assert LinkOk(v.db, p, v.procs[p]) && LinkOk(v.db, q, v.procs[q]);
  }

  /** Between two worlds of a run, rows only get newer and only current or later owners write. */
  ghost predicate Forwards(before: World, after: World) {
    && Newer(before.db.rows, after.db.rows)
    && Epoch(before.db) <= Epoch(after.db)
    && forall id <- after.db.rows ::
         || (id in before.db.rows && before.db.rows[id] == after.db.rows[id])
         || after.db.rows[id].token >= Epoch(before.db)
  }

  lemma StepGoesForward(w: World, e: Event)
    requires Inv(w) && Enabled(w, e)
    ensures Forwards(w, Apply(w, e))
  {
    if e.ServerCommit? {
      assert ServerOk(w, e.b);
      if w.db.live[e.b].work.Saving? {
        SaveCommitIsNewer(w, e.b);
      }
    }
  }

  lemma {:induction false} RunGoesForward(w: World, run: seq<Event>)
    requires Inv(w) && Possible(w, run)
    ensures Forwards(w, After(w, run))
    decreases |run|
  {
    if run != [] {
      var v := Apply(w, run[0]);
      StepGoesForward(w, run[0]);
      StepKeepsInv(w, run[0]);
      RunGoesForward(v, run[1..]);
      var u := After(w, run);
      forall id <- w.db.rows ensures Stored(u.db.rows, w.db.rows[id].token, id, w.db.rows[id].number) {
        assert Stored(v.db.rows, w.db.rows[id].token, id, w.db.rows[id].number);
      }
    }
  }

  /**
   Once a newer token is stored, a process with an older one never changes a
   row again: not while the newer owner runs, and not after it released the lock.
   */
  lemma StaleOwnerNeverOverwrites(w: World, run: seq<Event>, more: seq<Event>, p: Proc)
    requires Initial(w) && Possible(w, run) && Possible(After(w, run), more)
    requires p in After(w, run).procs
    requires var v := After(w, run); v.procs[p].token.Some? && v.procs[p].token.value < Epoch(v.db)
    ensures var v := After(w, run);
            var u := After(v, more);
            && Newer(v.db.rows, u.db.rows)
            && forall id <- u.db.rows :: u.db.rows[id].token == v.procs[p].token.value ==> id in v.db.rows && v.db.rows[id] == u.db.rows[id]
  {
    Reachable(w, run);
    RunGoesForward(After(w, run), more);
  }

  /**
   While its token is the stored one, a process sees its own world only: every
   row is the one it loaded, or one of its own checkpoints with exactly the
   content that lease left.
   */
  lemma CurrentOwnerIsOnlyWriter(w: World, run: seq<Event>, p: Proc)
    requires Initial(w) && Possible(w, run) && p in After(w, run).procs
    requires var v := After(w, run); v.procs[p].token.Some? && v.db.token == v.procs[p].token
    ensures var v := After(w, run); var r := v.procs[p];
            && (forall id <- r.loaded :: id in v.db.rows)
            && forall id <- v.db.rows ::
                 || (id in r.loaded && r.loaded[id] == v.db.rows[id])
                 || exists k :: 0 <= k < |r.history| && r.history[k] == Finished(id, v.db.rows[id].state)
  {
    Reachable(w, run);
    var v := After(w, run);
    var r := v.procs[p];
    assert DataOk(v.db, r);
    forall id <- v.db.rows
      ensures || (id in r.loaded && r.loaded[id] == v.db.rows[id])
              || exists k :: 0 <= k < |r.history| && r.history[k] == Finished(id, v.db.rows[id].state)
    {
      var row := v.db.rows[id];
      if row.token == r.token.value {
        assert v.procs[p].token == Some(v.db.rows[id].token);
        assert r.history[row.number - 1] == Finished(id, row.state);
      }
    }
  }

  // ----- Durability ---------------------------------------------------------------

  /** Nothing a lease left is ever forgotten: it is stored, in that version or a newer one, or still waits. */
  lemma NoCheckpointIsLost(w: World, run: seq<Event>, p: Proc, k: nat)
    requires Initial(w) && Possible(w, run) && p in After(w, run).procs
    requires k < |After(w, run).procs[p].history|
    ensures var v := After(w, run); var r := v.procs[p]; var id := r.history[k].id;
            && r.token.Some?
            && (Stored(v.db.rows, r.token.value, id, k + 1) || (id in r.ram.pending && r.ram.pending[id].number >= k + 1))
            && (id in r.ram.dirty <==> id in r.ram.pending)
  {
    Reachable(w, run);
    var v := After(w, run);
    var r := v.procs[p];
    assert PhaseOk(v.db, r) && DataOk(v.db, r);
    var id := r.history[k].id;
    if id in r.ram.pending {
      assert Latest(r.history, id, r.ram.pending[id].number);
    }
  }

  lemma StepKeepsHistory(w: World, e: Event, p: Proc)
    requires Enabled(w, e) && p in w.procs
    ensures p in Apply(w, e).procs
    ensures w.procs[p].history <= Apply(w, e).procs[p].history
    ensures w.procs[p].token.Some? ==> Apply(w, e).procs[p].token == w.procs[p].token
  {
  }

  lemma {:induction false} RunKeepsHistory(w: World, run: seq<Event>, p: Proc)
    requires Possible(w, run) && p in w.procs
    ensures p in After(w, run).procs
    ensures w.procs[p].history <= After(w, run).procs[p].history
    ensures w.procs[p].token.Some? ==> After(w, run).procs[p].token == w.procs[p].token
    decreases |run|
  {
    if run != [] {
      StepKeepsHistory(w, run[0], p);
      RunKeepsHistory(Apply(w, run[0]), run[1..], p);
    }
  }

  /**
   `flush` notes the checkpoint count and returns nil once `saved` reaches it.
   Then every checkpoint taken before the call is in the database, in that version
   or a newer one, and stays so in every longer run, whatever fails later and
   whoever owns the schema next.
   */
  lemma FlushIsSound(w: World, called: seq<Event>, returned: seq<Event>, later: seq<Event>, p: Proc)
    requires Initial(w) && Possible(w, called) && Possible(After(w, called), returned)
    requires Possible(After(After(w, called), returned), later)
    requires p in After(w, called).procs && p in After(After(w, called), returned).procs
    requires After(w, called).procs[p].ram.checkpoints <= After(After(w, called), returned).procs[p].ram.saved
    ensures var r := After(w, called).procs[p];
            var end := After(After(After(w, called), returned), later);
            forall k :: 0 <= k < |r.history| ==> r.token.Some? && Stored(end.db.rows, r.token.value, r.history[k].id, k + 1)
  {
    Reachable(w, called);
    var v := After(w, called);
    RunKeepsInv(v, returned);
    RunKeepsHistory(v, returned, p);
    var u := After(v, returned);
    RunGoesForward(u, later);
    var end := After(u, later);
    var r, s := v.procs[p], u.procs[p];
    assert ProcOk(v.db, p, r) && ProcOk(u.db, p, s);
    forall k | 0 <= k < |r.history|
      ensures r.token.Some? && Stored(end.db.rows, r.token.value, r.history[k].id, k + 1)
    {
      var id := r.history[k].id;
      assert s.history[k] == r.history[k];
      assert Stored(u.db.rows, s.token.value, id, k + 1);
      assert Stored(end.db.rows, u.db.rows[id].token, id, u.db.rows[id].number);
    }
  }

  /** Process `p` is confirmed on a living backend and no save is under way. */
  ghost predicate CanSave(w: World, p: Proc) {
    p in w.procs && w.procs[p].link.Up? && w.procs[p].link.b in w.db.live && w.procs[p].inflight == None
  }

  ghost function SaveRun(p: Proc, b: Backend): seq<Event> {
    [Begin(p), SendCommit(b), ServerCommit(b), SaveOk(p)]
  }

  lemma SaveBegins(w: World, p: Proc)
    requires Inv(w) && CanSave(w, p)
    ensures Enabled(w, Begin(p))
    ensures var b, v := w.procs[p].link.b, Apply(w, Begin(p));
            && b in v.db.live && v.db.live[b] == w.db.live[b].(work := Saving(Collected(w.procs[p].ram).written, false))
            && v.procs == w.procs[p := w.procs[p].(inflight := Some(Collected(w.procs[p].ram)), reply := false)]
            && w.db.live[b].proc == p
  {
    assert ProcOk(w.db, p, w.procs[p]) && LinkOk(w.db, p, w.procs[p]);
  }

  lemma SaveIsSent(w: World, p: Proc)
    requires p in w.procs && w.procs[p].link.Up? && w.procs[p].inflight.Some?
    requires var b := w.procs[p].link.b; b in w.db.live && w.db.live[b].proc == p && w.db.live[b].work.Saving?
    ensures var b := w.procs[p].link.b;
            && Enabled(w, SendCommit(b)) && Enabled(Apply(w, SendCommit(b)), ServerCommit(b))
            && var v := Apply(Apply(w, SendCommit(b)), ServerCommit(b));
               p in v.procs && v.procs[p] == w.procs[p].(reply := true) && Enabled(v, SaveOk(p))
               && Apply(v, SaveOk(p)).procs[p].ram == Saved(w.procs[p].ram, w.procs[p].inflight.value)
  {
  }

  lemma FirstStep(w: World, e: Event, rest: seq<Event>)
    requires Enabled(w, e) && Possible(Apply(w, e), rest)
    ensures Possible(w, [e] + rest) && After(w, [e] + rest) == After(Apply(w, e), rest)
  {
    assert ([e] + rest)[1..] == rest;
  }

  lemma FourSteps(w: World, a: Event, b: Event, c: Event, d: Event)
    requires Enabled(w, a) && Enabled(Apply(w, a), b) && Enabled(Apply(Apply(w, a), b), c) && Enabled(Apply(Apply(Apply(w, a), b), c), d)
    ensures Possible(w, [a, b, c, d]) && After(w, [a, b, c, d]) == Apply(Apply(Apply(Apply(w, a), b), c), d)
  {
    ThreeSteps(Apply(w, a), b, c, d);
    FirstStep(w, a, [b, c, d]);
    assert [a] + [b, c, d] == [a, b, c, d];
  }

  lemma ThreeSteps(w: World, a: Event, b: Event, c: Event)
    requires Enabled(w, a) && Enabled(Apply(w, a), b) && Enabled(Apply(Apply(w, a), b), c)
    ensures Possible(w, [a, b, c]) && After(w, [a, b, c]) == Apply(Apply(Apply(w, a), b), c)
  {
    var v := Apply(w, a);
    var u := Apply(v, b);
    FirstStep(u, c, []);
    FirstStep(v, b, [c]);
    FirstStep(w, a, [b, c]);
    assert [c] + [] == [c] && [b] + [c] == [b, c] && [a] + [b, c] == [a, b, c];
  }

  /**
   A confirmed owner can always save: whatever happened before, four events leave
   nothing of its checkpoints unsaved, so that a waiting `flush` returns nil.
   */
  lemma FlushCanReturn(w: World, run: seq<Event>, p: Proc)
    requires Initial(w) && Possible(w, run) && CanSave(After(w, run), p)
    ensures var v := After(w, run);
            var more := SaveRun(p, v.procs[p].link.b);
            && Possible(v, more)
            && p in After(v, more).procs
            && var r := After(v, more).procs[p].ram;
               r.dirty == {} && r.pending == map[] && r.saved == r.checkpoints == |v.procs[p].history|
  {
    Reachable(w, run);
    var v := After(w, run);
    var b := v.procs[p].link.b;
    SaveBegins(v, p);
    SaveIsSent(Apply(v, Begin(p)), p);
    FourSteps(v, Begin(p), SendCommit(b), ServerCommit(b), SaveOk(p));
    assert ProcOk(v.db, p, v.procs[p]);
    SaveLeavesOnlyNewer(v.procs[p].ram, v.procs[p].history, []);
  }

  /** An owner that lost its connection, while nobody else took over, is confirmed again. */
  lemma OwnerCanReturn(w: World, run: seq<Event>, p: Proc, pid: nat, visible: bool)
    requires Initial(w) && Possible(w, run) && p in After(w, run).procs
    requires var v := After(w, run); v.procs[p].phase == Serving && v.procs[p].link == Down && v.db.lock == None && FreshPid(v.db, pid)
    ensures var v := After(w, run);
            var more := [Dial(p, pid), Claim(p, visible), Verify(p)];
            && Possible(v, more)
            && p in After(v, more).procs
            && (CanSave(After(v, more), p) <==> v.db.token == v.procs[p].token)
            && (v.db.token != v.procs[p].token ==> After(v, more).procs[p].phase == Stopped)
  {
    Reachable(w, run);
    var v := After(w, run);
    assert ProcOk(v.db, p, v.procs[p]) && PhaseOk(v.db, v.procs[p]);
    var a := Apply(v, Dial(p, pid));
    var b := Apply(a, Claim(p, visible));
    ThreeSteps(v, Dial(p, pid), Claim(p, visible), Verify(p));
  }

  /** An owner that ends its own old backend frees the lock, and can then be confirmed again. */
  lemma EndingFreesTheLock(w: World, run: seq<Event>, p: Proc, v: Backend)
    requires Initial(w) && Possible(w, run) && Enabled(After(w, run), Terminate(p, v)) && After(w, run).db.lock == Some(v)
    ensures var u := Apply(After(w, run), Terminate(p, v));
            && u.db.lock == None && v !in u.db.live && u.db.token == After(w, run).db.token && u.db.rows == After(w, run).db.rows
            && p in u.procs && u.procs[p].phase == Serving && u.procs[p].link == Down && u.procs[p].token == After(w, run).procs[p].token
            && u.procs[p].ram == After(w, run).procs[p].ram
  {
  }

  /** A current owner with nothing unsaved leaves every identity exactly as its last lease left it. */
  lemma CleanOwnerLeavesFinalState(w: World, run: seq<Event>, p: Proc, k: nat)
    requires Initial(w) && Possible(w, run) && p in After(w, run).procs
    requires var v := After(w, run);
             && v.procs[p].ram.dirty == {}
             && v.db.token == v.procs[p].token
             && k < |v.procs[p].history|
             && Latest(v.procs[p].history, v.procs[p].history[k].id, k + 1)
    ensures var v := After(w, run);
            var f := v.procs[p].history[k];
            f.id in v.db.rows && v.db.rows[f.id].state == f.state
  {
    Reachable(w, run);
    var v := After(w, run);
    var r := v.procs[p];
    assert ProcOk(v.db, p, r);
    var id := r.history[k].id;
    assert Stored(v.db.rows, r.token.value, id, k + 1);
    assert v.db.rows[id].token <= Epoch(v.db);
    assert v.procs[p].token == Some(v.db.rows[id].token);
    assert Authentic(r.history, id, Checkpoint(v.db.rows[id].number, v.db.rows[id].state));
    assert r.history[v.db.rows[id].number - 1].id == id;
  }

  // ----- Ending the old connection -------------------------------------------------

  /**
   Reconnecting ends only the process's own earlier backend exactly when the
   remembered start time is known, or no other process has a backend with the
   remembered pid. The source promises it always.
   */
  lemma EndsOnlyOwnBackendIff(w: World, run: seq<Event>, p: Proc)
    requires Initial(w) && Possible(w, run) && p in After(w, run).procs
    requires var r := After(w, run).procs[p]; r.link.Dialed? && r.owner.Some?
    ensures var v := After(w, run); var r := v.procs[p];
            (forall b <- v.db.live :: Victim(v.db, r, b) ==> v.db.live[b].proc == p)
            <==> (r.owner.value.started.Some? || forall b <- v.db.live :: v.db.live[b].pid == r.owner.value.pid ==> v.db.live[b].proc == p)
  {
    Reachable(w, run);
    var v := After(w, run);
    var r := v.procs[p];
    assert OwnerOk(v.db, p, r) && LinkOk(v.db, p, r);
    if r.owner.value.started.None? {
      forall b <- v.db.live | v.db.live[b].pid == r.owner.value.pid && v.db.live[b].proc != p
        ensures Victim(v.db, r, b)
      {
        assert b != r.link.b;
      }
    }
  }

  // A concrete run, in worlds small enough to write down.

  ghost predicate Steps(w: World, e: Event, w': World) {
    Enabled(w, e) && w' == Apply(w, e)
  }

  ghost predicate Leads(w: World, run: seq<Event>, w': World) {
    Possible(w, run) && After(w, run) == w'
  }

  lemma {:induction false} LeadsOn(w: World, run: seq<Event>, v: World, more: seq<Event>, u: World)
    requires Leads(w, run, v) && Leads(v, more, u)
    ensures Leads(w, run + more, u)
    decreases |run|
  {
    if run == [] {
      assert run + more == more;
    } else {
      assert (run + more)[1..] == run[1..] + more;
      LeadsOn(Apply(w, run[0]), run[1..], v, more, u);
    }
  }

  ghost const Empty := World(Database(map[], None, None, map[], 1, 0), map[])

  /** Process 0 with pid 7, alone with its database. */
  ghost function Lone(r: Process, token: Option<Token>, lock: Option<Backend>, work: Work, nextToken: Token): World {
    World(Database(map[], token, lock, map[0 := Server(0, 7, work)], nextToken, 1), map[0 := r])
  }

  /** Its start time was not recorded. */
  ghost function Claimed(token: Option<Token>, reply: bool): Process {
    NewProcess(0).(link := Held(0), owner := Some(Owner(7, None)), token := token, reply := reply)
  }

  ghost function Ready(link: Link): Process {
    Process(Serving, true, link, Some(Owner(7, None)), Some(1), map[], Ram(map[], {}, 0, 0), [], None, false)
  }

  ghost function Second(link: Link, owner: Option<Owner>): Process {
    NewProcess(1).(link := link, owner := owner)
  }

  ghost function Gone(link: Link): World {
    World(Database(map[], Some(1), None, map[], 2, 1), map[0 := Ready(link)])
  }

  ghost function Both(link: Link, second: Process, lock: Option<Backend>, live: map<Backend, Server>): World {
    World(Database(map[], Some(1), lock, live, 2, 1 + |live|), map[0 := Ready(link), 1 := second])
  }

  lemma ClaimAlone()
    ensures Steps(Empty, Start(0, 7), Lone(NewProcess(0), None, None, Idle, 1))
    ensures Steps(Lone(NewProcess(0), None, None, Idle, 1), Claim(0, false), Lone(Claimed(None, false), None, Some(0), Idle, 1))
  {
  }

  lemma LoadAlone()
    ensures Steps(Lone(Claimed(None, false), None, Some(0), Idle, 1), Load(0), Lone(Claimed(Some(1), false), None, Some(0), Opening(1, false), 2))
    ensures Steps(Lone(Claimed(Some(1), false), None, Some(0), Opening(1, false), 2), SendCommit(0),
                  Lone(Claimed(Some(1), false), None, Some(0), Opening(1, true), 2))
  {
  }

  lemma CommitAlone()
    ensures Steps(Lone(Claimed(Some(1), false), None, Some(0), Opening(1, true), 2), ServerCommit(0),
                  Lone(Claimed(Some(1), true), Some(1), Some(0), Idle, 2))
    ensures Steps(Lone(Claimed(Some(1), true), Some(1), Some(0), Idle, 2), Opened(0), Lone(Ready(Up(0)), Some(1), Some(0), Idle, 2))
  {
  }

  lemma LoseAlone()
    ensures Steps(Lone(Ready(Up(0)), Some(1), Some(0), Idle, 2), Die(0), Gone(Up(0)))
    ensures Steps(Gone(Up(0)), Drop(0), Gone(Down))
  {
  }

  lemma StartSecond()
    ensures Steps(Gone(Down), Start(1, 7), Both(Down, Second(Dialed(1), None), None, map[1 := Server(1, 7, Idle)]))
    ensures Steps(Both(Down, Second(Dialed(1), None), None, map[1 := Server(1, 7, Idle)]), Claim(1, true),
                  Both(Down, Second(Held(1), Some(Owner(7, Some(1)))), Some(1), map[1 := Server(1, 7, Idle)]))
  {
  }

  lemma DialFirst()
    ensures Steps(Both(Down, Second(Held(1), Some(Owner(7, Some(1)))), Some(1), map[1 := Server(1, 7, Idle)]), Dial(0, 8),
                  Both(Dialed(2), Second(Held(1), Some(Owner(7, Some(1)))), Some(1), map[1 := Server(1, 7, Idle), 2 := Server(0, 8, Idle)]))
    ensures Enabled(Both(Dialed(2), Second(Held(1), Some(Owner(7, Some(1)))), Some(1), map[1 := Server(1, 7, Idle), 2 := Server(0, 8, Idle)]),
                    Terminate(0, 1))
  {
  }

  lemma OpenAlone()
    ensures Leads(Empty, [Start(0, 7), Claim(0, false), Load(0), SendCommit(0), ServerCommit(0), Opened(0)],
                  Lone(Ready(Up(0)), Some(1), Some(0), Idle, 2))
  {
    ClaimAlone();
    LoadAlone();
    CommitAlone();
  }

  lemma ReusePid()
    ensures Leads(Lone(Ready(Up(0)), Some(1), Some(0), Idle, 2), [Die(0), Drop(0), Start(1, 7), Claim(1, true), Dial(0, 8)],
                  Both(Dialed(2), Second(Held(1), Some(Owner(7, Some(1)))), Some(1), map[1 := Server(1, 7, Idle), 2 := Server(0, 8, Idle)]))
  {
    LoseAlone();
    StartSecond();
    DialFirst();
  }

  /**
   A run in which the start time stayed unknown: process 0's backend ends, its
   pid is reused by process 1, and process 0 would end process 1's backend.
   */
  lemma UnknownStartCanEndAnother() returns (w: World, run: seq<Event>, victim: Backend)
    ensures Initial(w) && Possible(w, run) && 0 in After(w, run).procs
    ensures Enabled(After(w, run), Terminate(0, victim))
    ensures After(w, run).db.live[victim].proc == 1
  {
    w, victim := Empty, 1;
    var open := [Start(0, 7), Claim(0, false), Load(0), SendCommit(0), ServerCommit(0), Opened(0)];
    var reuse := [Die(0), Drop(0), Start(1, 7), Claim(1, true), Dial(0, 8)];
    run := open + reuse;
    OpenAlone();
    ReusePid();
    DialFirst();
    LeadsOn(w, open, Lone(Ready(Up(0)), Some(1), Some(0), Idle, 2), reuse,
            Both(Dialed(2), Second(Held(1), Some(Owner(7, Some(1)))), Some(1), map[1 := Server(1, 7, Idle), 2 := Server(0, 8, Idle)]));
  }
}
