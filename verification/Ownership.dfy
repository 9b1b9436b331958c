/**
 Many service processes over one database schema.

 PostgreSQL is reduced to the rows, the ownership token, one advisory lock and
 the server processes ("backends") of open connections. A backend lives until
 it dies, and the lock it took is released only by its death. A transaction
 becomes visible in one step, when the server commits it: that can be before
 the client hears of it, after the client has given up, or never.

 A run is any sequence of enabled events. Connections fail on either side at
 any point, commits are ambiguous, leases finish at any time, and other
 processes start in between.
 */
module Ownership {
  import opened Common
  import opened WriteBehind

  type Proc = nat
  type Backend = nat
  type Token = nat

  // ----- State ---------------------------------------------------------------

  /** A stored identity, and which process stored it as which of its checkpoints. */
  datatype Row = Row(token: Token, number: nat, state: Content)

  type Rows = map<string, Row>

  /** The transaction a backend runs; `sent` once the client asked to commit it. */
  datatype Work =
    | Idle
    | Opening(token: Token, sent: bool)
    | Saving(written: map<string, Checkpoint>, sent: bool)

  datatype Server = Server(proc: Proc, pid: nat, work: Work)

  datatype Database = Database(
    rows: Rows,
    token: Option<Token>,
    lock: Option<Backend>,
    live: map<Backend, Server>,
    nextToken: Token,
    nextBackend: Backend)

  /** A process's connection: opened, holding the lock, or holding it with a checked token. */
  datatype Link = Down | Dialed(b: Backend) | Held(b: Backend) | Up(b: Backend)

  datatype Phase = Starting | Serving | Stopped

  /** The remembered lock holder. Backends are numbered by start, so the number is the start time. */
  datatype Owner = Owner(pid: nat, started: Option<Backend>)

  datatype Process = Process(
    phase: Phase,
    ready: bool,
    link: Link,
    owner: Option<Owner>,
    token: Option<Token>,
    loaded: Rows,
    ram: Ram,
    history: seq<Finished>,
    inflight: Option<Batch>,
    reply: bool)

  datatype World = World(db: Database, procs: map<Proc, Process>)

  // ----- Events --------------------------------------------------------------

  datatype Event =
    | Start(p: Proc, pid: nat)                 // a new process connects
    | Dial(p: Proc, pid: nat)                  // a serving process reconnects
    | Claim(p: Proc, visible: bool)            // the advisory lock was free
    | Refuse(p: Proc)                          // start-up found the lock taken
    | Terminate(p: Proc, victim: Backend)      // reconnecting ends its own old backend
    | Lost(p: Proc)                            // reconnecting found another holder
    | Load(p: Proc)                            // start-up reads all rows, draws a token
    | Opened(p: Proc)                          // the token's commit was confirmed
    | Verify(p: Proc)                          // reconnecting compares the token
    | Finish(p: Proc, f: Finished)             // a lease leaves a checkpoint
    | Begin(p: Proc)                           // a save is collected and sent, maybe of proxy health only
    | Skip(p: Proc)                            // nothing to save
    | SendCommit(b: Backend)
    | ServerCommit(b: Backend)
    | ServerAbort(b: Backend)
    | SaveOk(p: Proc)                          // the save was confirmed
    | SaveFailed(p: Proc)                      // only the statement failed
    | Drop(p: Proc)                            // the connection is given up
    | Die(b: Backend)                          // a backend ends, for any reason
    | Stop(p: Proc)                            // shutdown or a fatal error

  ghost function NewProcess(b: Backend): Process {
    Process(Starting, false, Dialed(b), None, None, map[], Ram(map[], {}, 0, 0), [], None, false)
  }

  ghost function Connected(db: Database, p: Proc, pid: nat): Database {
    db.(live := db.live[db.nextBackend := Server(p, pid, Idle)], nextBackend := db.nextBackend + 1)
  }

  ghost function Without(db: Database, b: Backend): Database {
    db.(live := db.live - {b}, lock := if db.lock == Some(b) then None else db.lock)
  }

  ghost function Working(db: Database, b: Backend, work: Work): Database
    requires b in db.live
  {
    db.(live := db.live[b := db.live[b].(work := work)])
  }

  ghost function Offline(r: Process): Process {
    r.(link := Down, inflight := None, reply := false,
       phase := if r.phase == Starting then Stopped else r.phase)
  }

  /** Backends that reconnecting may end: same pid as the remembered holder, and same start if known. */
  ghost predicate Victim(db: Database, r: Process, v: Backend) {
    && r.link.Dialed? && v != r.link.b
    && v in db.live
    && r.owner.Some? && db.live[v].pid == r.owner.value.pid
    && (r.owner.value.started.None? || r.owner.value.started == Some(v))
  }

  ghost function Overwritten(rows: Rows, token: Token, written: map<string, Checkpoint>): Rows {
    map id | id in rows.Keys + written.Keys ::
      if id in written then Row(token, written[id].number, written[id].state) else rows[id]
  }

  ghost function TokenOf(w: World, p: Proc): Token {
    if p in w.procs && w.procs[p].token.Some? then w.procs[p].token.value else 0
  }

  ghost predicate FreshPid(db: Database, pid: nat) {
    forall b <- db.live :: db.live[b].pid != pid
  }

  /** The process that owns `b` still listens on it. */
  ghost predicate Listening(w: World, b: Backend)
    requires b in w.db.live
  {
    var p := w.db.live[b].proc;
    p in w.procs && (w.procs[p].link == Held(b) || w.procs[p].link == Up(b))
  }

  ghost predicate Enabled(w: World, e: Event) {
    match e
    case Start(p, pid) => p !in w.procs && FreshPid(w.db, pid)
    case Dial(p, pid) => p in w.procs && w.procs[p].phase == Serving && w.procs[p].link == Down && FreshPid(w.db, pid)
    case Claim(p, _) => p in w.procs && w.procs[p].link.Dialed? && w.procs[p].link.b in w.db.live && w.db.lock == None
    case Refuse(p) => p in w.procs && w.procs[p].phase == Starting && w.procs[p].link.Dialed? && w.db.lock.Some?
    case Terminate(p, v) => p in w.procs && w.procs[p].phase == Serving && w.db.lock.Some? && Victim(w.db, w.procs[p], v)
    case Lost(p) => p in w.procs && w.procs[p].phase == Serving && w.procs[p].link.Dialed? && w.db.lock.Some?
                    && forall v <- w.db.live :: !Victim(w.db, w.procs[p], v)
    case Load(p) => p in w.procs && w.procs[p].phase == Starting && w.procs[p].link.Held? && w.procs[p].link.b in w.db.live && w.procs[p].token == None
    case Opened(p) => p in w.procs && w.procs[p].phase == Starting && w.procs[p].reply
    case Verify(p) => p in w.procs && w.procs[p].phase == Serving && w.procs[p].link.Held? && w.procs[p].link.b in w.db.live
    case Finish(p, _) => p in w.procs && w.procs[p].ready
    case Begin(p) => p in w.procs && w.procs[p].link.Up? && w.procs[p].inflight == None
    case Skip(p) => p in w.procs && w.procs[p].link.Up? && w.procs[p].inflight == None && w.procs[p].ram.dirty == {}
    case SendCommit(b) => b in w.db.live && w.db.live[b].work != Idle && Listening(w, b)
    case ServerCommit(b) => b in w.db.live && w.db.live[b].work != Idle && w.db.live[b].work.sent
    case ServerAbort(b) => b in w.db.live && w.db.live[b].work != Idle
    case SaveOk(p) => p in w.procs && w.procs[p].inflight.Some? && w.procs[p].reply
    case SaveFailed(p) => p in w.procs && w.procs[p].inflight.Some? && w.procs[p].link.Up?
                          && (w.procs[p].link.b in w.db.live ==> w.db.live[w.procs[p].link.b].work == Idle)
    case Drop(p) => p in w.procs && w.procs[p].phase != Stopped
    case Die(b) => b in w.db.live
    case Stop(p) => p in w.procs
  }

  ghost function Apply(w: World, e: Event): World
    requires Enabled(w, e)
  {
    match e
    case Start(p, pid) => World(Connected(w.db, p, pid), w.procs[p := NewProcess(w.db.nextBackend)])
    case Dial(p, pid) => World(Connected(w.db, p, pid), w.procs[p := w.procs[p].(link := Dialed(w.db.nextBackend))])
    case Claim(p, visible) =>
      var b := w.procs[p].link.b;
      var owner := Owner(w.db.live[b].pid, if visible then Some(b) else None);
      World(w.db.(lock := Some(b)), w.procs[p := w.procs[p].(link := Held(b), owner := Some(owner))])
    case Refuse(p) => w.(procs := w.procs[p := Offline(w.procs[p])])
    case Terminate(p, v) => World(Without(w.db, v), w.procs[p := Offline(w.procs[p])])
    case Lost(p) => w.(procs := w.procs[p := Offline(w.procs[p]).(phase := Stopped)])
    case Load(p) =>
      var t := w.db.nextToken;
      World(Working(w.db, w.procs[p].link.b, Opening(t, false)).(nextToken := t + 1),
            w.procs[p := w.procs[p].(token := Some(t), loaded := w.db.rows)])
    case Opened(p) =>
      var r := w.procs[p];
      w.(procs := w.procs[p := r.(phase := Serving, ready := true, reply := false,
                                  link := if r.link.Held? then Up(r.link.b) else Down)])
    case Verify(p) =>
      var r := w.procs[p];
      w.(procs := w.procs[p := if w.db.token.Some? && w.db.token == r.token then r.(link := Up(r.link.b))
                               else Offline(r).(phase := Stopped)])
    case Finish(p, f) =>
      var r := w.procs[p];
      w.(procs := w.procs[p := r.(ram := Checkpointed(r.ram, f), history := r.history + [f])])
    case Begin(p) =>
      var r := w.procs[p];
      var batch := Collected(r.ram);
      World(if r.link.b in w.db.live then Working(w.db, r.link.b, Saving(batch.written, false)) else w.db,
            w.procs[p := r.(inflight := Some(batch), reply := false)])
    case Skip(p) =>
      var r := w.procs[p];
      w.(procs := w.procs[p := r.(ram := Saved(r.ram, Collected(r.ram)))])
    case SendCommit(b) => w.(db := Working(w.db, b, w.db.live[b].work.(sent := true)))
    case ServerCommit(b) =>
      var s := w.db.live[b];
      var db := Working(w.db, b, Idle);
      World(match s.work
            case Idle => db
            case Opening(t, _) => db.(token := Some(t))
            case Saving(written, _) => db.(rows := Overwritten(db.rows, TokenOf(w, s.proc), written)),
            if Listening(w, b) then w.procs[s.proc := w.procs[s.proc].(reply := true)] else w.procs)
    case ServerAbort(b) => w.(db := Working(w.db, b, Idle))
    case SaveOk(p) =>
      var r := w.procs[p];
      w.(procs := w.procs[p := r.(ram := Saved(r.ram, r.inflight.value), inflight := None, reply := false)])
    case SaveFailed(p) => w.(procs := w.procs[p := w.procs[p].(inflight := None, reply := false)])
    case Drop(p) => w.(procs := w.procs[p := Offline(w.procs[p])])
    case Die(b) => w.(db := Without(w.db, b))
    case Stop(p) => w.(procs := w.procs[p := Offline(w.procs[p]).(phase := Stopped)])
  }

  // ----- Invariant -----------------------------------------------------------

  /** Identity `id` is stored by the owner of `token` as checkpoint `n`, or in a newer version. */
  ghost predicate Stored(rows: Rows, token: Token, id: string, n: nat) {
    id in rows && (rows[id].token > token || (rows[id].token == token && rows[id].number >= n))
  }

  /** Every stored version in `rows` is still there, or a newer one is. */
  ghost predicate Newer(rows: Rows, rows': Rows) {
    forall id <- rows :: Stored(rows', rows[id].token, id, rows[id].number)
  }

  ghost function Epoch(db: Database): Token {
    if db.token.Some? then db.token.value else 0
  }

  ghost predicate LinkOk(db: Database, id: Proc, p: Process) {
    match p.link
    case Down => true
    case Dialed(b) => b < db.nextBackend && (b in db.live ==> db.live[b].proc == id && db.live[b].work == Idle && db.lock != Some(b))
    case Held(b) => b < db.nextBackend && (b in db.live ==> db.live[b].proc == id && db.lock == Some(b) && (p.phase == Serving ==> db.live[b].work == Idle))
    case Up(b) => b < db.nextBackend && (b in db.live ==>
                    && db.live[b].proc == id && db.lock == Some(b) && db.token == p.token
                    && (db.live[b].work != Idle ==> p.inflight.Some? && db.live[b].work.Saving? && db.live[b].work.written == p.inflight.value.written))
  }

  ghost predicate PhaseOk(db: Database, p: Process) {
    && (p.phase == Starting ==> !p.ready && (p.link.Dialed? || p.link.Held?) && (p.token.Some? ==> p.link.Held?))
    && (p.phase == Serving ==> p.ready)
    && (p.phase == Stopped ==> p.link == Down)
    && (p.link.Up? ==> p.phase == Serving)
    && (p.ready ==> p.token.Some?)
    && (!p.ready ==> p.history == [] && p.inflight == None && p.ram == Ram(map[], {}, 0, 0))
    && (p.inflight.Some? ==> p.link.Up?)
    && (p.token.Some? ==> 0 < p.token.value < db.nextToken)
  }

  /** A confirmation in the process's hands is backed by the database. */
  ghost predicate ReplyOk(db: Database, p: Process) {
    p.reply ==>
      && p.token.Some?
      && (p.link.Held? || p.link.Up?)
      && (p.link.b in db.live ==> db.live[p.link.b].work == Idle && db.token == p.token)
      && (p.link.Held? ==> p.phase == Starting)
      && (p.link.Up? ==> p.inflight.Some? && forall id <- p.inflight.value.written :: Stored(db.rows, p.token.value, id, p.inflight.value.written[id].number))
  }

  /** Checkpoint number k+1 is stored, or something newer is still waiting. */
  ghost predicate NothingLost(rows: Rows, p: Process)
    requires p.token.Some?
  {
    forall k {:trigger p.history[k]} :: 0 <= k < |p.history| ==>
      Stored(rows, p.token.value, p.history[k].id, k + 1) || p.history[k].id in p.ram.pending
  }

  /** Everything counted as saved is stored. */
  ghost predicate SavedIsStored(rows: Rows, p: Process)
    requires p.token.Some?
  {
    forall k {:trigger p.history[k]} :: 0 <= k < p.ram.saved && k < |p.history| ==> Stored(rows, p.token.value, p.history[k].id, k + 1)
  }

  /** What a save in flight covers is stored already or part of the save. */
  ghost predicate BatchCovers(rows: Rows, p: Process, b: Batch)
    requires p.token.Some?
  {
    && BatchOk(b, p.history)
    && forall k {:trigger p.history[k]} :: 0 <= k < b.through && k < |p.history| ==>
         || Stored(rows, p.token.value, p.history[k].id, k + 1)
         || (p.history[k].id in b.written && b.written[p.history[k].id].number >= k + 1)
  }

  /** While its token is current, only this process has changed what it loaded. */
  ghost predicate OnlyWriter(rows: Rows, p: Process)
    requires p.token.Some?
  {
    && (forall id <- p.loaded :: id in rows)
    && (forall id <- rows :: rows[id].token == p.token.value || (id in p.loaded && p.loaded[id] == rows[id]))
  }

  ghost predicate DataOk(db: Database, p: Process) {
    && RamOk(p.ram, p.history)
    && (p.ready && p.token.Some? ==> NothingLost(db.rows, p) && SavedIsStored(db.rows, p))
    && (p.inflight.Some? && p.token.Some? ==> BatchCovers(db.rows, p, p.inflight.value))
    && (p.token.Some? && db.token == p.token ==> OnlyWriter(db.rows, p))
  }

  /** A remembered start time is that of one of the process's own backends. */
  ghost predicate OwnerOk(db: Database, id: Proc, p: Process) {
    p.owner.Some? && p.owner.value.started.Some? ==>
      var b := p.owner.value.started.value;
      b < db.nextBackend && (b in db.live ==> db.live[b].proc == id)
  }

  ghost predicate ProcOk(db: Database, id: Proc, p: Process) {
    LinkOk(db, id, p) && OwnerOk(db, id, p) && PhaseOk(db, p) && ReplyOk(db, p) && DataOk(db, p)
  }

  /** A save would not take any row back. */
  ghost predicate Forward(rows: Rows, p: Process, written: map<string, Checkpoint>) {
    && p.token.Some?
    && forall id <- written ::
         && Authentic(p.history, id, written[id])
         && (id in rows && rows[id].token == p.token.value ==> rows[id].number <= written[id].number)
  }

  ghost predicate ServerOk(w: World, b: Backend)
    requires b in w.db.live
  {
    var s := w.db.live[b];
    && b < w.db.nextBackend
    && s.proc in w.procs
    && (s.work != Idle ==> w.db.lock == Some(b))
    && (s.work.Opening? ==>
          && w.procs[s.proc].token == Some(s.work.token)
          && !w.procs[s.proc].ready
          && (w.procs[s.proc].phase == Stopped || w.procs[s.proc].link == Held(b))
          && Epoch(w.db) < s.work.token
          && w.procs[s.proc].loaded == w.db.rows)
    && (s.work.Saving? ==>
          && w.procs[s.proc].ready
          && w.db.token == w.procs[s.proc].token
          && Forward(w.db.rows, w.procs[s.proc], s.work.written))
  }

  ghost predicate DatabaseOk(db: Database) {
    && (db.lock.Some? ==> db.lock.value in db.live)
    && Epoch(db) < db.nextToken
    && (forall id <- db.rows :: db.rows[id].token <= Epoch(db))
  }

  /** Rows carry what their writer checkpointed. */
  ghost predicate RowsOk(w: World) {
    forall id, p {:trigger w.db.rows[id], w.procs[p]} ::
      id in w.db.rows && p in w.procs && w.procs[p].token == Some(w.db.rows[id].token) ==>
        Authentic(w.procs[p].history, id, Checkpoint(w.db.rows[id].number, w.db.rows[id].state))
  }

  ghost predicate TokensOk(w: World) {
    forall p, q {:trigger w.procs[p], w.procs[q]} :: p in w.procs && q in w.procs && p != q && w.procs[p].token.Some? ==> w.procs[p].token != w.procs[q].token
  }

  ghost predicate Inv(w: World) {
    && DatabaseOk(w.db)
    && RowsOk(w)
    && TokensOk(w)
    && (forall p <- w.procs :: ProcOk(w.db, p, w.procs[p]))
    && (forall b <- w.db.live :: ServerOk(w, b))
  }

  // ----- Every event keeps the invariant -------------------------------------

  /** Nothing process `p` relies on differs between the two databases. */
  ghost predicate SameFor(db: Database, db': Database, p: Process) {
    && db'.rows == db.rows && db'.token == db.token
    && db.nextToken <= db'.nextToken && db.nextBackend <= db'.nextBackend
    && (forall b <- db'.live :: b < db.nextBackend ==> b in db.live && db'.live[b].proc == db.live[b].proc)
    && (p.link != Down && p.link.b in db'.live ==>
          && p.link.b in db.live && db'.live[p.link.b] == db.live[p.link.b]
          && (db'.lock == Some(p.link.b) <==> db.lock == Some(p.link.b)))
  }

  lemma Untouched(db: Database, db': Database, id: Proc, p: Process)
    requires ProcOk(db, id, p) && SameFor(db, db', p)
    ensures ProcOk(db', id, p)
  {
  }

  /** The new state of one process still fits the transactions of its backends. */
  ghost predicate Continues(w: World, p: Proc, r: Process)
    requires p in w.procs
  {
    var o := w.procs[p];
    && r.token == o.token && r.loaded == o.loaded && o.history <= r.history
    && (o.ready ==> r.ready)
    && forall b <- w.db.live :: w.db.live[b].proc == p && w.db.live[b].work.Opening? ==>
         !r.ready && (r.phase == Stopped || r.link == Held(b))
  }

  /** An event that changes one process and nothing in the database. */
  lemma ProcessStep(w: World, p: Proc, r: Process)
    requires Inv(w) && p in w.procs && Continues(w, p, r) && ProcOk(w.db, p, r)
    ensures Inv(w.(procs := w.procs[p := r]))
  {
    var w' := w.(procs := w.procs[p := r]);
    forall b <- w'.db.live ensures ServerOk(w', b) {
      assert ServerOk(w, b);
    }
    forall id, q | id in w'.db.rows && q in w'.procs && w'.procs[q].token == Some(w'.db.rows[id].token)
      ensures Authentic(w'.procs[q].history, id, Checkpoint(w'.db.rows[id].number, w'.db.rows[id].state))
    {
      assert w.procs[q].token == Some(w.db.rows[id].token);
    }
  }

  lemma OfflineKeepsInv(w: World, p: Proc, phase: Phase)
    requires Inv(w) && p in w.procs
    requires phase == Stopped || phase == Offline(w.procs[p]).phase
    ensures Inv(w.(procs := w.procs[p := Offline(w.procs[p]).(phase := phase)]))
  {
    var r := Offline(w.procs[p]).(phase := phase);
    assert ProcOk(w.db, p, w.procs[p]);
    forall b <- w.db.live | w.db.live[b].proc == p && w.db.live[b].work.Opening?
      ensures !r.ready && r.phase == Stopped
    {
      assert ServerOk(w, b);
    }
    ProcessStep(w, p, r);
  }

  /** A process that has opened, or holds the news that it did, has no opening left to commit. */
  lemma NotOpening(w: World, p: Proc)
    requires Inv(w) && p in w.procs && (w.procs[p].ready || w.procs[p].reply)
    ensures forall b <- w.db.live :: w.db.live[b].proc == p ==> !w.db.live[b].work.Opening?
  {
    assert ProcOk(w.db, p, w.procs[p]);
    forall b <- w.db.live | w.db.live[b].proc == p
      ensures !w.db.live[b].work.Opening?
    {
      assert ServerOk(w, b);
    }
  }

  lemma OpenedKeepsInv(w: World, p: Proc)
    requires Inv(w) && Enabled(w, Opened(p))
    ensures Inv(Apply(w, Opened(p)))
  {
    var o := w.procs[p];
    var r := o.(phase := Serving, ready := true, reply := false, link := Up(o.link.b));
    assert ProcOk(w.db, p, o);
    NotOpening(w, p);
    ProcessStep(w, p, r);
  }

  lemma VerifyKeepsInv(w: World, p: Proc)
    requires Inv(w) && Enabled(w, Verify(p))
    ensures Inv(Apply(w, Verify(p)))
  {
    var o := w.procs[p];
    assert ProcOk(w.db, p, o);
    if w.db.token.Some? && w.db.token == o.token {
      NotOpening(w, p);
      ProcessStep(w, p, o.(link := Up(o.link.b)));
    } else {
      OfflineKeepsInv(w, p, Stopped);
    }
  }

  lemma FinishKeepsData(db: Database, p: Process, f: Finished)
    requires DataOk(db, p) && p.ready
    ensures DataOk(db, p.(ram := Checkpointed(p.ram, f), history := p.history + [f]))
  {
    var r := p.(ram := Checkpointed(p.ram, f), history := p.history + [f]);
    CheckpointKeepsRam(p.ram, p.history, f);
    forall k | 0 <= k < |p.history| ensures r.history[k] == p.history[k] {
    }
  }

  lemma FinishKeepsInv(w: World, p: Proc, f: Finished)
    requires Inv(w) && Enabled(w, Finish(p, f))
    ensures Inv(Apply(w, Finish(p, f)))
  {
    var o := w.procs[p];
    assert ProcOk(w.db, p, o);
    FinishKeepsData(w.db, o, f);
    NotOpening(w, p);
    ProcessStep(w, p, o.(ram := Checkpointed(o.ram, f), history := o.history + [f]));
  }

  lemma SaveFailedKeepsInv(w: World, p: Proc)
    requires Inv(w) && Enabled(w, SaveFailed(p))
    ensures Inv(Apply(w, SaveFailed(p)))
  {
    var o := w.procs[p];
    assert ProcOk(w.db, p, o);
    NotOpening(w, p);
    ProcessStep(w, p, o.(inflight := None, reply := false));
  }

  /** Forgetting a stored batch loses nothing and counts nothing unstored as saved. */
  lemma SettledIsStored(rows: Rows, p: Process, b: Batch)
    requires p.token.Some? && RamOk(p.ram, p.history)
    requires NothingLost(rows, p) && SavedIsStored(rows, p) && BatchCovers(rows, p, b)
    requires forall id <- b.written :: Stored(rows, p.token.value, id, b.written[id].number)
    ensures RamOk(Saved(p.ram, b), p.history)
    ensures NothingLost(rows, p.(ram := Saved(p.ram, b)))
    ensures SavedIsStored(rows, p.(ram := Saved(p.ram, b)))
  {
    SaveKeepsRam(p.ram, p.history, b);
    var r := p.(ram := Saved(p.ram, b));
    forall k | 0 <= k < |p.history|
      ensures Stored(rows, p.token.value, p.history[k].id, k + 1) || p.history[k].id in r.ram.pending
    {
      var id := p.history[k].id;
      if id in p.ram.pending && id !in r.ram.pending {
        assert Settles(p.ram, b, id) && Latest(p.history, id, p.ram.pending[id].number);
      }
    }
  }

  lemma SkipKeepsInv(w: World, p: Proc)
    requires Inv(w) && Enabled(w, Skip(p))
    ensures Inv(Apply(w, Skip(p)))
  {
    var o := w.procs[p];
    assert ProcOk(w.db, p, o);
    CollectIsBatch(o.ram, o.history);
    SettledIsStored(w.db.rows, o, Collected(o.ram));
    NotOpening(w, p);
    ProcessStep(w, p, o.(ram := Saved(o.ram, Collected(o.ram))));
  }

  lemma SaveOkKeepsInv(w: World, p: Proc)
    requires Inv(w) && Enabled(w, SaveOk(p))
    ensures Inv(Apply(w, SaveOk(p)))
  {
    var o := w.procs[p];
    assert ProcOk(w.db, p, o);
    SettledIsStored(w.db.rows, o, o.inflight.value);
    NotOpening(w, p);
    ProcessStep(w, p, o.(ram := Saved(o.ram, o.inflight.value), inflight := None, reply := false));
  }

  ghost predicate FreshToken(w: World, t: Option<Token>) {
    t.Some? && Epoch(w.db) < t.value && forall q <- w.procs :: w.procs[q].token != t
  }

  /** A database event that leaves rows and token alone and touches the link of at most `p`. */
  lemma ConnectionStep(w: World, db: Database, p: Proc, r: Process)
    requires Inv(w)
    requires DatabaseOk(db) && db.rows == w.db.rows && db.token == w.db.token
    requires forall q <- w.procs :: q != p ==> SameFor(w.db, db, w.procs[q])
    requires ProcOk(db, p, r)
    requires p in w.procs ==> r.history == w.procs[p].history
    requires r.token == (if p in w.procs then w.procs[p].token else None) || FreshToken(w, r.token)
    requires forall b <- db.live :: ServerOk(World(db, w.procs[p := r]), b)
    ensures Inv(World(db, w.procs[p := r]))
  {
    var w' := World(db, w.procs[p := r]);
    forall q <- w'.procs ensures ProcOk(w'.db, q, w'.procs[q]) {
      if q != p {
        Untouched(w.db, db, q, w.procs[q]);
      }
    }
    forall id, q | id in w'.db.rows && q in w'.procs && w'.procs[q].token == Some(w'.db.rows[id].token)
      ensures Authentic(w'.procs[q].history, id, Checkpoint(w'.db.rows[id].number, w'.db.rows[id].state))
    {
      assert w.procs[q].token == Some(w.db.rows[id].token);
    }
  }

  /** The links of all processes point to backends already created. */
  lemma LinksAreOld(w: World)
    requires Inv(w)
    ensures forall q <- w.procs :: w.procs[q].link != Down ==> w.procs[q].link.b < w.db.nextBackend
    ensures forall b <- w.db.live :: b < w.db.nextBackend
  {
    forall q <- w.procs ensures w.procs[q].link != Down ==> w.procs[q].link.b < w.db.nextBackend {
      assert ProcOk(w.db, q, w.procs[q]);
    }
    forall b <- w.db.live ensures b < w.db.nextBackend {
      assert ServerOk(w, b);
    }
  }

  lemma ConnectKeepsServers(w: World, p: Proc, pid: nat, r: Process)
    requires Inv(w)
    requires p in w.procs ==> w.procs[p].phase == Serving && r == w.procs[p].(link := Dialed(w.db.nextBackend))
    ensures forall b <- Connected(w.db, p, pid).live :: ServerOk(World(Connected(w.db, p, pid), w.procs[p := r]), b)
  {
    var db := Connected(w.db, p, pid);
    if p in w.procs {
      assert PhaseOk(w.db, w.procs[p]);
    }
    forall b <- db.live ensures ServerOk(World(db, w.procs[p := r]), b) {
      if b != w.db.nextBackend {
        assert ServerOk(w, b);
      }
    }
  }

  lemma ConnectKeepsProcess(w: World, p: Proc, pid: nat, r: Process)
    requires Inv(w)
    requires p !in w.procs ==> r == NewProcess(w.db.nextBackend)
    requires p in w.procs ==> w.procs[p].phase == Serving && w.procs[p].link == Down && r == w.procs[p].(link := Dialed(w.db.nextBackend))
    ensures ProcOk(Connected(w.db, p, pid), p, r)
  {
    if p in w.procs {
      assert ProcOk(w.db, p, w.procs[p]);
    }
  }

  lemma ConnectSpares(w: World, p: Proc, pid: nat, q: Proc)
    requires Inv(w) && q in w.procs
    ensures SameFor(w.db, Connected(w.db, p, pid), w.procs[q])
  {
    LinksAreOld(w);
    assert ProcOk(w.db, q, w.procs[q]);
  }

  lemma ConnectKeepsInv(w: World, p: Proc, pid: nat, r: Process)
    requires Inv(w)
    requires p !in w.procs ==> r == NewProcess(w.db.nextBackend)
    requires p in w.procs ==> w.procs[p].phase == Serving && w.procs[p].link == Down && r == w.procs[p].(link := Dialed(w.db.nextBackend))
    ensures Inv(World(Connected(w.db, p, pid), w.procs[p := r]))
  {
    var db := Connected(w.db, p, pid);
    ConnectKeepsProcess(w, p, pid, r);
    forall q <- w.procs | q != p ensures SameFor(w.db, db, w.procs[q]) {
      ConnectSpares(w, p, pid, q);
    }
    ConnectKeepsServers(w, p, pid, r);
    ConnectionStep(w, db, p, r);
  }

  lemma ClaimKeepsInv(w: World, p: Proc, visible: bool)
    requires Inv(w) && Enabled(w, Claim(p, visible))
    ensures Inv(Apply(w, Claim(p, visible)))
  {
    var w' := Apply(w, Claim(p, visible));
    assert ProcOk(w.db, p, w.procs[p]);
    forall q <- w.procs | q != p ensures SameFor(w.db, w'.db, w.procs[q]) {
      assert ProcOk(w.db, q, w.procs[q]);
    }
    forall b <- w'.db.live ensures ServerOk(w', b) {
      assert ServerOk(w, b);
    }
    ConnectionStep(w, w'.db, p, w'.procs[p]);
  }

  lemma DieKeepsInv(w: World, b: Backend)
    requires Inv(w) && Enabled(w, Die(b))
    ensures Inv(Apply(w, Die(b)))
  {
    var w' := Apply(w, Die(b));
    var p := w.db.live[b].proc;
    assert ServerOk(w, b);
    assert ProcOk(w.db, p, w.procs[p]);
    forall q <- w.procs ensures SameFor(w.db, w'.db, w.procs[q]) {
      assert ProcOk(w.db, q, w.procs[q]);
    }
    Untouched(w.db, w'.db, p, w.procs[p]);
    forall c <- w'.db.live ensures ServerOk(w', c) {
      assert ServerOk(w, c);
    }
    assert w.procs[p := w.procs[p]] == w.procs;
    ConnectionStep(w, w'.db, p, w.procs[p]);
  }

  lemma ServerStepKeepsProcess(w: World, b: Backend, work: Work)
    requires Inv(w) && b in w.db.live && w.db.live[b].work != Idle
    requires work == Idle || work == w.db.live[b].work.(sent := true)
    ensures var p := w.db.live[b].proc; p in w.procs && ProcOk(Working(w.db, b, work), p, w.procs[p])
  {
    assert ServerOk(w, b);
    var p := w.db.live[b].proc;
    assert ProcOk(w.db, p, w.procs[p]);
    if w.procs[p].link == Down || w.procs[p].link.b != b {
      Untouched(w.db, Working(w.db, b, work), p, w.procs[p]);
    }
  }

  lemma ServerStepSpares(w: World, b: Backend, work: Work, q: Proc)
    requires Inv(w) && b in w.db.live && q in w.procs && w.db.live[b].proc != q
    ensures SameFor(w.db, Working(w.db, b, work), w.procs[q])
  {
    assert ProcOk(w.db, q, w.procs[q]);
  }

  lemma ServerStepKeepsServer(w: World, b: Backend, work: Work, c: Backend)
    requires Inv(w) && b in w.db.live && w.db.live[b].work != Idle && c in w.db.live
    requires work == Idle || work == w.db.live[b].work.(sent := true)
    ensures ServerOk(w.(db := Working(w.db, b, work)), c)
  {
    assert ServerOk(w, c);
  }

  lemma ServerStep(w: World, b: Backend, work: Work)
    requires Inv(w) && b in w.db.live && w.db.live[b].work != Idle
    requires work == Idle || work == w.db.live[b].work.(sent := true)
    ensures Inv(w.(db := Working(w.db, b, work)))
  {
    var w' := w.(db := Working(w.db, b, work));
    var p := w.db.live[b].proc;
    ServerStepKeepsProcess(w, b, work);
    forall q <- w.procs | q != p ensures SameFor(w.db, w'.db, w.procs[q]) {
      ServerStepSpares(w, b, work, q);
    }
    assert w.procs[p := w.procs[p]] == w.procs;
    forall c <- w'.db.live ensures ServerOk(w', c) {
      ServerStepKeepsServer(w, b, work, c);
    }
    ConnectionStep(w, w'.db, p, w.procs[p]);
  }

  lemma TokensAreOld(w: World)
    requires Inv(w)
    ensures FreshToken(w, Some(w.db.nextToken))
  {
    forall q <- w.procs ensures w.procs[q].token != Some(w.db.nextToken) {
      assert ProcOk(w.db, q, w.procs[q]);
    }
  }

  lemma LoadKeepsInv(w: World, p: Proc)
    requires Inv(w) && Enabled(w, Load(p))
    ensures Inv(Apply(w, Load(p)))
  {
    var w' := Apply(w, Load(p));
    TokensAreOld(w);
    assert ProcOk(w.db, p, w.procs[p]);
    forall q <- w.procs | q != p ensures SameFor(w.db, w'.db, w.procs[q]) {
      assert ProcOk(w.db, q, w.procs[q]);
    }
    forall b <- w'.db.live ensures ServerOk(w', b) {
      assert ServerOk(w, b);
    }
    ConnectionStep(w, w'.db, p, w'.procs[p]);
  }

  lemma CollectGoesForward(w: World, p: Proc)
    requires Inv(w) && p in w.procs && w.procs[p].ready
    ensures Forward(w.db.rows, w.procs[p], Collected(w.procs[p].ram).written)
    ensures BatchCovers(w.db.rows, w.procs[p], Collected(w.procs[p].ram))
  {
    var r := w.procs[p];
    var b := Collected(r.ram);
    assert ProcOk(w.db, p, r);
    CollectIsBatch(r.ram, r.history);
    forall id <- b.written
      ensures Authentic(r.history, id, b.written[id])
      ensures id in w.db.rows && w.db.rows[id].token == r.token.value ==> w.db.rows[id].number <= b.written[id].number
    {
      assert Latest(r.history, id, r.ram.pending[id].number);
      if id in w.db.rows && w.db.rows[id].token == r.token.value {
        assert Authentic(r.history, id, Checkpoint(w.db.rows[id].number, w.db.rows[id].state));
        assert r.history[w.db.rows[id].number - 1].id == id;
      }
    }
    forall k | 0 <= k < b.through && k < |r.history|
      ensures || Stored(w.db.rows, r.token.value, r.history[k].id, k + 1)
              || (r.history[k].id in b.written && b.written[r.history[k].id].number >= k + 1)
    {
      var id := r.history[k].id;
      if id in r.ram.pending {
        assert Latest(r.history, id, r.ram.pending[id].number);
      }
    }
  }

  lemma BeginKeepsProcess(w: World, p: Proc)
    requires Inv(w) && Enabled(w, Begin(p))
    ensures ProcOk(Apply(w, Begin(p)).db, p, Apply(w, Begin(p)).procs[p])
  {
    assert ProcOk(w.db, p, w.procs[p]);
    CollectGoesForward(w, p);
  }

  lemma BeginKeepsServers(w: World, p: Proc, b: Backend)
    requires Inv(w) && Enabled(w, Begin(p)) && b in Apply(w, Begin(p)).db.live
    ensures ServerOk(Apply(w, Begin(p)), b)
  {
    assert ProcOk(w.db, p, w.procs[p]) && ServerOk(w, b);
    CollectGoesForward(w, p);
  }

  lemma BeginSpares(w: World, p: Proc, q: Proc)
    requires Inv(w) && Enabled(w, Begin(p)) && q in w.procs && q != p
    ensures SameFor(w.db, Apply(w, Begin(p)).db, w.procs[q])
  {
    assert LinkOk(w.db, p, w.procs[p]) && LinkOk(w.db, q, w.procs[q]);
  }

  lemma BeginKeepsInv(w: World, p: Proc)
    requires Inv(w) && Enabled(w, Begin(p))
    ensures Inv(Apply(w, Begin(p)))
  {
    var w' := Apply(w, Begin(p));
    BeginKeepsProcess(w, p);
    forall q <- w.procs | q != p ensures SameFor(w.db, w'.db, w.procs[q]) {
      BeginSpares(w, p, q);
    }
    forall b <- w'.db.live ensures ServerOk(w', b) {
      BeginKeepsServers(w, p, b);
    }
    ConnectionStep(w, w'.db, p, w'.procs[p]);
  }

  // ----- Server commits -------------------------------------------------------

  /** A changed database stays good for a process whose stored versions only got newer. */
  lemma DataSurvives(db: Database, db': Database, p: Process)
    requires DataOk(db, p) && Newer(db.rows, db'.rows)
    requires p.token.Some? && db'.token == p.token ==> OnlyWriter(db'.rows, p)
    ensures DataOk(db', p)
  {
    if p.token.Some? {
      forall id, n: nat | Stored(db.rows, p.token.value, id, n) ensures Stored(db'.rows, p.token.value, id, n) {
      }
    }
  }

  lemma OpenCommitKeepsProcess(w: World, b: Backend, q: Proc)
    requires Inv(w) && Enabled(w, ServerCommit(b)) && w.db.live[b].work.Opening? && q in w.procs
    ensures ProcOk(Apply(w, ServerCommit(b)).db, q, Apply(w, ServerCommit(b)).procs[q])
  {
    var w' := Apply(w, ServerCommit(b));
    var p := w.db.live[b].proc;
    assert ServerOk(w, b);
    assert ProcOk(w.db, q, w.procs[q]) && ProcOk(w.db, p, w.procs[p]);
    assert q != p ==> w.procs[q].token != w.procs[p].token;
    DataSurvives(w.db, w'.db, w'.procs[q]);
  }

  lemma SaveCommitIsNewer(w: World, b: Backend)
    requires Inv(w) && Enabled(w, ServerCommit(b)) && w.db.live[b].work.Saving?
    ensures Newer(w.db.rows, Apply(w, ServerCommit(b)).db.rows)
  {
    assert ServerOk(w, b);
  }

  lemma SaveCommitKeepsData(w: World, b: Backend, q: Proc)
    requires Inv(w) && Enabled(w, ServerCommit(b)) && w.db.live[b].work.Saving? && q in w.procs
    ensures DataOk(Apply(w, ServerCommit(b)).db, Apply(w, ServerCommit(b)).procs[q])
  {
    var w' := Apply(w, ServerCommit(b));
    var p := w.db.live[b].proc;
    SaveCommitIsNewer(w, b);
    assert ServerOk(w, b);
    assert DataOk(w.db, w.procs[q]);
    assert q != p ==> w.procs[q].token != w.procs[p].token;
    DataSurvives(w.db, w'.db, w'.procs[q]);
  }

  lemma SaveCommitKeepsProcess(w: World, b: Backend, q: Proc)
    requires Inv(w) && Enabled(w, ServerCommit(b)) && w.db.live[b].work.Saving? && q in w.procs
    ensures ProcOk(Apply(w, ServerCommit(b)).db, q, Apply(w, ServerCommit(b)).procs[q])
  {
    SaveCommitKeepsData(w, b, q);
    SaveCommitIsNewer(w, b);
    assert ServerOk(w, b);
    assert LinkOk(w.db, q, w.procs[q]) && OwnerOk(w.db, q, w.procs[q]) && PhaseOk(w.db, w.procs[q]) && ReplyOk(w.db, w.procs[q]);
  }

  lemma CommitKeepsServers(w: World, b: Backend, c: Backend)
    requires Inv(w) && Enabled(w, ServerCommit(b)) && c in w.db.live
    ensures ServerOk(Apply(w, ServerCommit(b)), c)
  {
    assert ServerOk(w, b) && ServerOk(w, c);
  }

  lemma CommitKeepsRows(w: World, b: Backend)
    requires Inv(w) && Enabled(w, ServerCommit(b))
    ensures RowsOk(Apply(w, ServerCommit(b)))
  {
    var w' := Apply(w, ServerCommit(b));
    var p := w.db.live[b].proc;
    assert ServerOk(w, b);
    assert forall q <- w.procs :: q != p && w.procs[p].token.Some? ==> w.procs[q].token != w.procs[p].token;
    forall id, q | id in w'.db.rows && q in w'.procs && w'.procs[q].token == Some(w'.db.rows[id].token)
      ensures Authentic(w'.procs[q].history, id, Checkpoint(w'.db.rows[id].number, w'.db.rows[id].state))
    {
      if w.db.live[b].work.Idle? || w.db.live[b].work.Opening? || id !in w.db.live[b].work.written {
        assert w.procs[q].token == Some(w.db.rows[id].token);
      }
    }
  }

  lemma CommitKeepsInv(w: World, b: Backend)
    requires Inv(w) && Enabled(w, ServerCommit(b))
    ensures Inv(Apply(w, ServerCommit(b)))
  {
    var w' := Apply(w, ServerCommit(b));
    assert ServerOk(w, b);
    forall q <- w'.procs ensures ProcOk(w'.db, q, w'.procs[q]) {
      if w.db.live[b].work.Opening? {
        OpenCommitKeepsProcess(w, b, q);
      } else {
        SaveCommitKeepsProcess(w, b, q);
      }
    }
    forall c <- w'.db.live ensures ServerOk(w', c) {
      CommitKeepsServers(w, b, c);
    }
    CommitKeepsRows(w, b);
    CommitKeepsTokens(w, b);
  }

  lemma CommitKeepsTokens(w: World, b: Backend)
    requires Inv(w) && Enabled(w, ServerCommit(b))
    ensures TokensOk(Apply(w, ServerCommit(b))) && DatabaseOk(Apply(w, ServerCommit(b)).db)
  {
    var w' := Apply(w, ServerCommit(b));
    var p := w.db.live[b].proc;
    assert ServerOk(w, b);
    assert ProcOk(w.db, p, w.procs[p]);
    forall q, r | q in w'.procs && r in w'.procs && q != r && w'.procs[q].token.Some?
      ensures w'.procs[q].token != w'.procs[r].token
    {
      assert w.procs[q].token != w.procs[r].token;
    }
  }

  // ----- Runs -------------------------------------------------------------------

  lemma StepKeepsInv(w: World, e: Event)
    requires Inv(w) && Enabled(w, e)
    ensures Inv(Apply(w, e))
  {
    match e
    case Start(p, pid) => ConnectKeepsInv(w, p, pid, NewProcess(w.db.nextBackend));
    case Dial(p, pid) => ConnectKeepsInv(w, p, pid, w.procs[p].(link := Dialed(w.db.nextBackend)));
    case Claim(p, visible) => ClaimKeepsInv(w, p, visible);
    case Refuse(p) => OfflineKeepsInv(w, p, Offline(w.procs[p]).phase);
    case Terminate(p, v) =>
      DieKeepsInv(w, v);
      OfflineKeepsInv(Apply(w, Die(v)), p, Offline(w.procs[p]).phase);
    case Lost(p) => OfflineKeepsInv(w, p, Stopped);
    case Load(p) => LoadKeepsInv(w, p);
    case Opened(p) => OpenedKeepsInv(w, p);
    case Verify(p) => VerifyKeepsInv(w, p);
    case Finish(p, f) => FinishKeepsInv(w, p, f);
    case Begin(p) => BeginKeepsInv(w, p);
    case Skip(p) => SkipKeepsInv(w, p);
    case SendCommit(b) => ServerStep(w, b, w.db.live[b].work.(sent := true));
    case ServerCommit(b) => CommitKeepsInv(w, b);
    case ServerAbort(b) => ServerStep(w, b, Idle);
    case SaveOk(p) => SaveOkKeepsInv(w, p);
    case SaveFailed(p) => SaveFailedKeepsInv(w, p);
    case Drop(p) => OfflineKeepsInv(w, p, Offline(w.procs[p]).phase);
    case Die(b) => DieKeepsInv(w, b);
    case Stop(p) => OfflineKeepsInv(w, p, Stopped);
  }

  /** Rows from before the first process, and no connections. */
  ghost predicate Initial(w: World) {
    w.procs == map[] && w.db.live == map[] && w.db.lock == None && DatabaseOk(w.db)
  }

  ghost predicate Possible(w: World, run: seq<Event>)
    decreases |run|
  {
    run != [] ==> Enabled(w, run[0]) && Possible(Apply(w, run[0]), run[1..])
  }

  ghost function After(w: World, run: seq<Event>): World
    requires Possible(w, run)
    decreases |run|
  {
    if run == [] then w else After(Apply(w, run[0]), run[1..])
  }

  lemma {:induction false} RunKeepsInv(w: World, run: seq<Event>)
    requires Inv(w) && Possible(w, run)
    ensures Inv(After(w, run))
    decreases |run|
  {
    if run != [] {
      StepKeepsInv(w, run[0]);
      RunKeepsInv(Apply(w, run[0]), run[1..]);
    }
  }

  lemma Reachable(w: World, run: seq<Event>)
    requires Initial(w) && Possible(w, run)
    ensures Inv(After(w, run))
  {
    RunKeepsInv(w, run);
  }
}
