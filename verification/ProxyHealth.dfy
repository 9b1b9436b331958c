/**
 The health of the proxy routes, saved beside the identities' checkpoints by the
 processes and backends of `Ownership`. Health changes at any time, also while a
 save is under way; a save may take effect and report an error, or take effect later
 than that. What keeps such saves apart is the lock and the token, as for identities.
 */
module ProxyHealth {
  import opened Common
  import opened WriteBehind
  import O = Ownership
  import S = OwnershipSafety

  /** A stored health, and which process stored it as which of its versions. */
  datatype Row = Row(token: O.Token, version: nat, body: string)

  /** Each process's proxies since it loaded the rows, what its save in flight covers, and what a backend's transaction carries. */
  datatype World = World(
    own: O.World,
    rows: seq<Row>,
    proxies: map<O.Proc, seq<Proxy>>,
    sent: map<O.Proc, map<nat, Health>>,
    carried: map<O.Backend, map<nat, Health>>)

  datatype Event =
    | Own(e: O.Event)
    | Change(p: O.Proc, i: nat, health: Option<string>)

  ghost predicate NoneUnsaved(proxies: seq<Proxy>) {
    forall i: nat :: !Unsaved(proxies, i)
  }

  /** Collecting fails if some health cannot be encoded; there is no save when there is nothing to save. */
  ghost predicate Enabled(w: World, e: Event) {
    match e
    case Change(p, i, _) => p in w.own.procs && w.own.procs[p].ready && i < |Of(w, p)|
    case Own(e) =>
      && O.Enabled(w.own, e)
      && (e.Begin? ==> Encodable(Of(w, e.p)) && (w.own.procs[e.p].ram.dirty != {} || !NoneUnsaved(Of(w, e.p))))
      && (e.Skip? ==> NoneUnsaved(Of(w, e.p)))
  }

  ghost function Of(w: World, p: O.Proc): seq<Proxy> {
    if p in w.proxies then w.proxies[p] else []
  }

  ghost function Batch<K>(m: map<K, map<nat, Health>>, k: K): map<nat, Health> {
    if k in m then m[k] else map[]
  }

  ghost function Loaded(rows: seq<Row>): (r: seq<Proxy>)
    ensures |r| == |rows|
  {
    seq(|rows|, i requires 0 <= i < |rows| => Proxy(Some(rows[i].body), 0, 0))
  }

  ghost function Written(rows: seq<Row>, token: O.Token, batch: map<nat, Health>): (r: seq<Row>)
    ensures |r| == |rows|
  {
    seq(|rows|, i requires 0 <= i < |rows| => if i in batch then Row(token, batch[i].version, batch[i].body) else rows[i])
  }

  ghost function Changed(p: Proxy, health: Option<string>): Proxy {
    p.(health := health, version := p.version + 1)
  }

  ghost function Apply(w: World, e: Event): World
    requires Enabled(w, e)
  {
    match e
    case Change(p, i, health) => w.(proxies := w.proxies[p := w.proxies[p][i := Changed(w.proxies[p][i], health)]])
    case Own(e) => Owned(w, e).(own := O.Apply(w.own, e))
  }

  /** What an event of the protocol does to the health. */
  ghost function Owned(w: World, e: O.Event): World
    requires Enabled(w, Own(e))
  {
    match e
    case Load(p) => w.(proxies := w.proxies[p := Loaded(w.rows)])
    case Begin(p) =>
      var batch := CollectedHealth(Of(w, p));
      w.(sent := w.sent[p := batch], carried := w.carried[w.own.procs[p].link.b := batch])
    case ServerCommit(b) =>
      var s := w.own.db.live[b];
      if s.work.Saving? then w.(rows := Written(w.rows, O.TokenOf(w.own, s.proc), Batch(w.carried, b))) else w
    case SaveOk(p) => w.(proxies := w.proxies[p := SavedHealth(Of(w, p), Batch(w.sent, p))])
    case _ => w
  }

  // ----- What the protocol gives ---------------------------------------------------------

  /** `b` is about to store the token of process `r`. */
  ghost predicate Opens(db: O.Database, b: O.Backend, r: O.Process) {
    b in db.live && db.live[b].work.Opening? && r.token == Some(db.live[b].work.token)
  }

  /** The rows are those `r` loaded, or its own: its token is stored, or about to be. */
  ghost predicate Bound(db: O.Database, r: O.Process) {
    r.token.Some? && (db.token == r.token || exists b :: Opens(db, b, r))
  }

  ghost predicate LinkFacts(db: O.Database, p: O.Proc, r: O.Process) {
    && ((r.link.Held? || r.link.Up?) && r.link.b in db.live ==> db.lock == Some(r.link.b) && db.live[r.link.b].proc == p)
    && (r.link.Up? && r.link.b in db.live ==> db.token == r.token)
    && (r.inflight.Some? ==> r.link.Up? && r.ready && r.phase == O.Serving)
    && (r.reply && r.inflight.Some? && r.link.b in db.live ==> db.live[r.link.b].work == O.Idle)
    && (r.link.Up? && r.link.b in db.live && db.live[r.link.b].work != O.Idle ==> r.inflight.Some?)
    && (r.link.Up? ==> r.ready)
    && (r.ready ==> r.token.Some?)
    && (r.token.Some? ==> r.token.value < db.nextToken)
  }

  ghost predicate ServerFacts(w: O.World, b: O.Backend)
    requires b in w.db.live
  {
    var s := w.db.live[b];
    && (s.work != O.Idle ==> w.db.lock == Some(b) && s.proc in w.procs && w.procs[s.proc].token.Some?)
    && (s.work.Opening? ==> w.procs[s.proc].token == Some(s.work.token) && !w.procs[s.proc].ready && O.Epoch(w.db) < s.work.token)
    && (s.work.Saving? ==> w.db.token == w.procs[s.proc].token && w.procs[s.proc].ready)
  }

  /** What is needed of the protocol's invariant. */
  ghost predicate Facts(w: O.World) {
    && (forall p <- w.procs :: LinkFacts(w.db, p, w.procs[p]))
    && (forall b <- w.db.live :: ServerFacts(w, b))
    && O.TokensOk(w)
    && O.Epoch(w.db) < w.db.nextToken
  }

  lemma InvGivesFacts(w: O.World)
    requires O.Inv(w)
    ensures Facts(w)
  {
    forall p <- w.procs ensures LinkFacts(w.db, p, w.procs[p]) {
      var r := w.procs[p];
      assert O.ProcOk(w.db, p, r);
      assert O.LinkOk(w.db, p, r) && O.PhaseOk(w.db, r) && O.ReplyOk(w.db, r);
    }
    forall b <- w.db.live ensures ServerFacts(w, b) {
      assert O.ServerOk(w, b);
      if w.db.live[b].work.Saving? {
        assert O.PhaseOk(w.db, w.procs[w.db.live[b].proc]);
      }
    }
  }

  // ----- The invariant -----------------------------------------------------------------------

  /** A row as the process with `token` knows it: its own version, or version 0 as it was loaded. */
  ghost function Seen(row: Row, token: O.Token): Health {
    Health(if row.token == token then row.version else 0, row.body)
  }

  /** The health `h` is what the proxy has, or had at an earlier version. */
  predicate Had(p: Proxy, h: Health) {
    h.version <= p.version && (h.version == p.version ==> p.health == Some(h.body))
  }

  ghost predicate RowOk(w: World, p: O.Proc, i: nat)
    requires p in w.own.procs && w.own.procs[p].token.Some?
  {
    i < |w.rows| && i < |Of(w, p)| ==>
      var h := Seen(w.rows[i], w.own.procs[p].token.value);
      Had(Of(w, p)[i], h) && Of(w, p)[i].saved <= h.version
  }

  /** What a save of process `p` writes is health it has or had, newer than what is saved or stored. */
  ghost predicate WritesForward(w: World, p: O.Proc, batch: map<nat, Health>)
    requires p in w.own.procs && w.own.procs[p].token.Some?
  {
    forall i <- batch ::
      && i < |w.rows| == |Of(w, p)| && Had(Of(w, p)[i], batch[i])
      && Of(w, p)[i].saved < batch[i].version
      && Seen(w.rows[i], w.own.procs[p].token.value).version <= batch[i].version
  }

  ghost predicate SentOk(w: World, p: O.Proc)
    requires p in w.own.procs && w.own.procs[p].token.Some? && w.own.procs[p].inflight.Some?
  {
    var r := w.own.procs[p];
    var batch := Batch(w.sent, p);
    && (forall i <- batch :: i < |w.rows|)
    && (r.link.Up? && r.link.b in w.own.db.live && w.own.db.live[r.link.b].work.Saving? ==> Batch(w.carried, r.link.b) == batch)
    && (r.reply && Bound(w.own.db, r) ==>
          forall i <- batch :: w.rows[i] == Row(r.token.value, batch[i].version, batch[i].body))
  }

  ghost predicate ProcessOk(w: World, p: O.Proc) {
    p in w.own.procs && w.own.procs[p].token.Some? ==>
      var r := w.own.procs[p];
      && p in w.proxies && |w.proxies[p]| == |w.rows|
      && (Bound(w.own.db, r) ==> forall i: nat {:trigger RowOk(w, p, i)} :: RowOk(w, p, i))
      && (r.inflight.Some? ==> SentOk(w, p))
  }

  /** A save still running is its process's latest, on the connection it has, if it has one. */
  ghost predicate SaverOk(w: World, b: O.Backend) {
    b in w.own.db.live && w.own.db.live[b].work.Saving? ==>
      var p := w.own.db.live[b].proc;
      && p in w.own.procs && w.own.procs[p].token.Some?
      && ((w.own.procs[p].link.Held? || w.own.procs[p].link.Up?) ==> w.own.procs[p].link.b == b)
      && WritesForward(w, p, Batch(w.carried, b))
  }

  ghost predicate RowsAreOld(w: World) {
    forall i :: 0 <= i < |w.rows| ==> w.rows[i].token <= O.Epoch(w.own.db)
  }

  ghost predicate Inv(w: World) {
    && O.Inv(w.own)
    && (forall p: O.Proc {:trigger ProcessOk(w, p)} :: ProcessOk(w, p))
    && (forall b: O.Backend {:trigger SaverOk(w, b)} :: SaverOk(w, b))
    && RowsAreOld(w)
  }

  // ----- Events that leave the health alone ------------------------------------------------------

  ghost predicate QuietFor(w: O.World, v: O.World, p: O.Proc) {
    p in v.procs && v.procs[p].token.Some? ==>
      && p in w.procs && v.procs[p].token == w.procs[p].token
      && (Bound(v.db, v.procs[p]) ==> Bound(w.db, w.procs[p]))
      && (v.procs[p].inflight.Some? ==>
            w.procs[p].inflight.Some? && v.procs[p].link == w.procs[p].link && (v.procs[p].reply ==> w.procs[p].reply))
  }

  ghost predicate QuietAt(w: O.World, v: O.World, b: O.Backend) {
    b in v.db.live && v.db.live[b].work.Saving? ==>
      && b in w.db.live && w.db.live[b].work.Saving? && v.db.live[b].proc == w.db.live[b].proc
      && var p := v.db.live[b].proc;
         && p in v.procs && v.procs[p].token.Some?
         && ((v.procs[p].link.Held? || v.procs[p].link.Up?) ==> p in w.procs && (w.procs[p].link.Held? || w.procs[p].link.Up?) && v.procs[p].link.b == w.procs[p].link.b)
  }

  /** No token is drawn, no save begins or succeeds. */
  ghost predicate Quiet(w: O.World, v: O.World) {
    && O.Epoch(w.db) <= O.Epoch(v.db)
    && (forall p: O.Proc {:trigger QuietFor(w, v, p)} :: QuietFor(w, v, p))
    && (forall b: O.Backend {:trigger QuietAt(w, v, b)} :: QuietAt(w, v, b))
  }

  lemma QuietKeepsProcess(w: World, own: O.World, p: O.Proc)
    requires ProcessOk(w, p) && QuietFor(w.own, own, p)
    requires forall b: O.Backend {:trigger QuietAt(w.own, own, b)} :: QuietAt(w.own, own, b)
    ensures ProcessOk(w.(own := own), p)
  {
    var v := w.(own := own);
    if p in own.procs && own.procs[p].token.Some? {
      var r := own.procs[p];
      if Bound(own.db, r) {
        forall i: nat ensures RowOk(v, p, i) {
          assert RowOk(w, p, i);
        }
      }
      if r.inflight.Some? && r.link.Up? {
        assert QuietAt(w.own, own, r.link.b);
      }
    }
  }

  lemma QuietKeepsSaver(w: World, own: O.World, b: O.Backend)
    requires SaverOk(w, b) && QuietAt(w.own, own, b)
    requires forall p: O.Proc {:trigger QuietFor(w.own, own, p)} :: QuietFor(w.own, own, p)
    ensures SaverOk(w.(own := own), b)
  {
    if b in own.db.live && own.db.live[b].work.Saving? {
      assert QuietFor(w.own, own, own.db.live[b].proc);
    }
  }

  lemma QuietKeepsInv(w: World, own: O.World)
    requires Inv(w) && O.Inv(own) && Quiet(w.own, own)
    ensures Inv(w.(own := own))
  {
    var v := w.(own := own);
    forall p: O.Proc ensures ProcessOk(v, p) {
      assert ProcessOk(w, p);
      QuietKeepsProcess(w, own, p);
    }
    forall b: O.Backend ensures SaverOk(v, b) {
      assert SaverOk(w, b);
      QuietKeepsSaver(w, own, b);
    }
  }

  /** Events other than those that draw a token, or begin, store or settle a save. */
  ghost predicate LeavesHealth(w: O.World, e: O.Event)
    requires O.Enabled(w, e)
  {
    !e.Load? && !e.Begin? && !e.SaveOk? && (e.ServerCommit? ==> !w.db.live[e.b].work.Saving?)
  }

  lemma QuietProcess(w: O.World, e: O.Event, p: O.Proc)
    requires Facts(w) && O.Enabled(w, e) && LeavesHealth(w, e)
    ensures QuietFor(w, O.Apply(w, e), p)
  {
    var v := O.Apply(w, e);
    if p in v.procs && v.procs[p].token.Some? {
      assert p in w.procs && v.procs[p].token == w.procs[p].token;
      forall b: O.Backend ensures Opens(v.db, b, v.procs[p]) ==> Opens(w.db, b, w.procs[p]) {
      }
      if e.ServerCommit? && w.db.live[e.b].work.Opening? && v.db.token == v.procs[p].token {
        assert Opens(w.db, e.b, w.procs[p]);
      }
      assert LinkFacts(w.db, p, w.procs[p]);
      if e.ServerCommit? {
        assert ServerFacts(w, e.b);
      }
    }
  }

  lemma QuietServer(w: O.World, e: O.Event, b: O.Backend)
    requires Facts(w) && O.Enabled(w, e) && LeavesHealth(w, e)
    ensures QuietAt(w, O.Apply(w, e), b)
  {
    if b in w.db.live {
      assert ServerFacts(w, b);
    }
  }

  lemma QuietEvent(w: O.World, e: O.Event)
    requires Facts(w) && O.Enabled(w, e) && LeavesHealth(w, e)
    ensures Quiet(w, O.Apply(w, e))
  {
    if e.ServerCommit? {
      assert ServerFacts(w, e.b);
    }
    forall p: O.Proc ensures QuietFor(w, O.Apply(w, e), p) {
      QuietProcess(w, e, p);
    }
    forall b: O.Backend ensures QuietAt(w, O.Apply(w, e), b) {
      QuietServer(w, e, b);
    }
  }

  // ----- Events that change it ---------------------------------------------------------------------

  lemma ChangeKeepsInv(w: World, p: O.Proc, i: nat, health: Option<string>)
    requires Inv(w) && Enabled(w, Change(p, i, health))
    ensures Inv(Apply(w, Change(p, i, health)))
  {
    var v := Apply(w, Change(p, i, health));
    forall q: O.Proc ensures ProcessOk(v, q) {
      assert ProcessOk(w, q);
      if q in v.own.procs && v.own.procs[q].token.Some? && Bound(v.own.db, v.own.procs[q]) {
        forall k: nat ensures RowOk(v, q, k) {
          assert RowOk(w, q, k);
        }
      }
    }
    forall b: O.Backend ensures SaverOk(v, b) {
      assert SaverOk(w, b);
    }
  }

  /** The process that draws a token has no save under way. */
  lemma LoadKeepsProcess(w: World, p: O.Proc, q: O.Proc)
    requires Facts(w.own) && ProcessOk(w, q) && RowsAreOld(w) && Enabled(w, Own(O.Load(p)))
    ensures ProcessOk(Apply(w, Own(O.Load(p))), q)
  {
    var v := Apply(w, Own(O.Load(p)));
    assert LinkFacts(w.own.db, p, w.own.procs[p]);
    if q == p {
      forall i: nat ensures RowOk(v, q, i) {
      }
    } else if q in v.own.procs && v.own.procs[q].token.Some? {
      var r := v.own.procs[q];
      assert LinkFacts(w.own.db, q, r);
      if Bound(v.own.db, r) {
        forall b: O.Backend ensures Opens(v.own.db, b, r) ==> Opens(w.own.db, b, r) {
        }
        forall i: nat ensures RowOk(v, q, i) {
          assert RowOk(w, q, i);
        }
      }
    }
  }

  lemma LoadKeepsSaver(w: World, p: O.Proc, b: O.Backend)
    requires Facts(w.own) && SaverOk(w, b) && Enabled(w, Own(O.Load(p)))
    ensures SaverOk(Apply(w, Own(O.Load(p))), b)
  {
    if b in w.own.db.live {
      assert ServerFacts(w.own, b);
    }
  }

  lemma LoadKeepsInv(w: World, p: O.Proc)
    requires Inv(w) && Enabled(w, Own(O.Load(p)))
    ensures Inv(Apply(w, Own(O.Load(p))))
  {
    var v := Apply(w, Own(O.Load(p)));
    InvGivesFacts(w.own);
    O.StepKeepsInv(w.own, O.Load(p));
    forall q: O.Proc ensures ProcessOk(v, q) {
      assert ProcessOk(w, q);
      LoadKeepsProcess(w, p, q);
    }
    forall b: O.Backend ensures SaverOk(v, b) {
      assert SaverOk(w, b);
      LoadKeepsSaver(w, p, b);
    }
  }

  /** What is collected is newer than what is saved, and not older than what is stored. */
  lemma CollectedIsForward(w: World, p: O.Proc)
    requires ProcessOk(w, p) && p in w.own.procs && w.own.procs[p].token.Some? && Bound(w.own.db, w.own.procs[p])
    requires Encodable(Of(w, p))
    ensures WritesForward(w, p, CollectedHealth(Of(w, p)))
  {
    forall i <- CollectedHealth(Of(w, p)) ensures RowOk(w, p, i) {
    }
  }

  lemma BeginKeepsProcess(w: World, p: O.Proc, q: O.Proc)
    requires Facts(w.own) && ProcessOk(w, p) && ProcessOk(w, q) && Enabled(w, Own(O.Begin(p)))
    ensures ProcessOk(Apply(w, Own(O.Begin(p))), q)
  {
    var v := Apply(w, Own(O.Begin(p)));
    assert LinkFacts(w.own.db, p, w.own.procs[p]);
    assert |Of(w, p)| == |w.rows| && Batch(v.sent, p) == CollectedHealth(Of(w, p));
    if q in v.own.procs && v.own.procs[q].token.Some? && v.own.procs[q].inflight.Some? {
      if q == p {
        assert SentOk(v, q);
      } else {
        assert SentOk(w, q);
        assert Batch(v.sent, q) == Batch(w.sent, q);
        assert SentOk(v, q);
      }
    }
    if q in v.own.procs && v.own.procs[q].token.Some? {
      assert LinkFacts(w.own.db, q, w.own.procs[q]);
      if Bound(v.own.db, v.own.procs[q]) {
        forall b: O.Backend ensures Opens(v.own.db, b, v.own.procs[q]) ==> Opens(w.own.db, b, w.own.procs[q]) {
        }
        forall i: nat ensures RowOk(v, q, i) {
          assert RowOk(w, q, i);
        }
      }
    }
  }

  lemma BeginKeepsSaver(w: World, p: O.Proc, b: O.Backend)
    requires Facts(w.own) && ProcessOk(w, p) && SaverOk(w, b) && Enabled(w, Own(O.Begin(p)))
    ensures SaverOk(Apply(w, Own(O.Begin(p))), b)
  {
    var v := Apply(w, Own(O.Begin(p)));
    assert LinkFacts(w.own.db, p, w.own.procs[p]);
    if b in v.own.db.live && v.own.db.live[b].work.Saving? {
      if b == w.own.procs[p].link.b {
        CollectedIsForward(w, p);
        assert Batch(v.carried, b) == CollectedHealth(Of(w, p));
      }
    }
  }

  lemma BeginKeepsInv(w: World, p: O.Proc)
    requires Inv(w) && Enabled(w, Own(O.Begin(p)))
    ensures Inv(Apply(w, Own(O.Begin(p))))
  {
    var v := Apply(w, Own(O.Begin(p)));
    InvGivesFacts(w.own);
    O.StepKeepsInv(w.own, O.Begin(p));
    assert ProcessOk(w, p);
    forall q: O.Proc ensures ProcessOk(v, q) {
      assert ProcessOk(w, q);
      BeginKeepsProcess(w, p, q);
    }
    forall b: O.Backend ensures SaverOk(v, b) {
      assert SaverOk(w, b);
      BeginKeepsSaver(w, p, b);
    }
  }

  /** While one backend stores a save, no other process is bound to the rows. */
  lemma OnlySaverIsBound(w: O.World, b: O.Backend, q: O.Proc)
    requires Facts(w) && b in w.db.live && w.db.live[b].work.Saving?
    requires q in w.procs && q != w.db.live[b].proc
    ensures !Bound(w.db, w.procs[q])
  {
    var p := w.db.live[b].proc;
    assert ServerFacts(w, b);
    forall c: O.Backend ensures !Opens(w.db, c, w.procs[q]) {
      if c in w.db.live {
        assert ServerFacts(w, c);
      }
    }
  }

  lemma CommitKeepsOwn(w: World, b: O.Backend)
    requires Facts(w.own) && SaverOk(w, b) && Enabled(w, Own(O.ServerCommit(b))) && w.own.db.live[b].work.Saving?
    requires ProcessOk(w, w.own.db.live[b].proc)
    ensures ProcessOk(Apply(w, Own(O.ServerCommit(b))), w.own.db.live[b].proc)
  {
    var v := Apply(w, Own(O.ServerCommit(b)));
    var p := w.own.db.live[b].proc;
    assert ServerFacts(w.own, b) && LinkFacts(w.own.db, p, w.own.procs[p]);
    forall i: nat ensures RowOk(v, p, i) {
      assert RowOk(w, p, i);
    }
  }

  lemma CommitSpares(w: World, b: O.Backend, q: O.Proc)
    requires Facts(w.own) && Enabled(w, Own(O.ServerCommit(b))) && w.own.db.live[b].work.Saving?
    requires ProcessOk(w, q) && q != w.own.db.live[b].proc
    ensures ProcessOk(Apply(w, Own(O.ServerCommit(b))), q)
  {
    var v := Apply(w, Own(O.ServerCommit(b)));
    if q in v.own.procs && v.own.procs[q].token.Some? {
      OnlySaverIsBound(w.own, b, q);
      forall c: O.Backend ensures Opens(v.own.db, c, v.own.procs[q]) ==> Opens(w.own.db, c, w.own.procs[q]) {
      }
      assert !Bound(v.own.db, v.own.procs[q]);
    }
  }

  lemma CommitEndsSaves(w: World, b: O.Backend, c: O.Backend)
    requires Facts(w.own) && Enabled(w, Own(O.ServerCommit(b))) && w.own.db.live[b].work.Saving?
    ensures SaverOk(Apply(w, Own(O.ServerCommit(b))), c)
  {
    assert ServerFacts(w.own, b);
    if c in w.own.db.live {
      assert ServerFacts(w.own, c);
    }
  }

  lemma CommitKeepsRows(w: World, b: O.Backend)
    requires Facts(w.own) && RowsAreOld(w) && Enabled(w, Own(O.ServerCommit(b))) && w.own.db.live[b].work.Saving?
    ensures RowsAreOld(Apply(w, Own(O.ServerCommit(b))))
  {
    var p := w.own.db.live[b].proc;
    assert ServerFacts(w.own, b) && LinkFacts(w.own.db, p, w.own.procs[p]);
  }

  lemma CommitKeepsInv(w: World, b: O.Backend)
    requires Inv(w) && Enabled(w, Own(O.ServerCommit(b))) && w.own.db.live[b].work.Saving?
    ensures Inv(Apply(w, Own(O.ServerCommit(b))))
  {
    var v := Apply(w, Own(O.ServerCommit(b)));
    InvGivesFacts(w.own);
    O.StepKeepsInv(w.own, O.ServerCommit(b));
    forall q: O.Proc ensures ProcessOk(v, q) {
      assert ProcessOk(w, q) && SaverOk(w, b);
      if q == w.own.db.live[b].proc {
        CommitKeepsOwn(w, b);
      } else {
        CommitSpares(w, b, q);
      }
    }
    forall c: O.Backend ensures SaverOk(v, c) {
      CommitEndsSaves(w, b, c);
    }
    CommitKeepsRows(w, b);
  }

  lemma SaveOkKeepsProcess(w: World, p: O.Proc, q: O.Proc)
    requires Facts(w.own) && ProcessOk(w, p) && ProcessOk(w, q) && Enabled(w, Own(O.SaveOk(p)))
    ensures ProcessOk(Apply(w, Own(O.SaveOk(p))), q)
  {
    var v := Apply(w, Own(O.SaveOk(p)));
    assert LinkFacts(w.own.db, p, w.own.procs[p]);
    if q in v.own.procs && v.own.procs[q].token.Some? && Bound(v.own.db, v.own.procs[q]) {
      forall b: O.Backend ensures Opens(v.own.db, b, v.own.procs[q]) ==> Opens(w.own.db, b, w.own.procs[q]) {
      }
      forall i: nat ensures RowOk(v, q, i) {
        assert RowOk(w, q, i);
      }
    }
  }

  lemma SaveOkKeepsSaver(w: World, p: O.Proc, b: O.Backend)
    requires Facts(w.own) && ProcessOk(w, p) && SaverOk(w, b) && Enabled(w, Own(O.SaveOk(p)))
    ensures SaverOk(Apply(w, Own(O.SaveOk(p))), b)
  {
    assert LinkFacts(w.own.db, p, w.own.procs[p]);
  }

  lemma SaveOkKeepsInv(w: World, p: O.Proc)
    requires Inv(w) && Enabled(w, Own(O.SaveOk(p)))
    ensures Inv(Apply(w, Own(O.SaveOk(p))))
  {
    var v := Apply(w, Own(O.SaveOk(p)));
    InvGivesFacts(w.own);
    O.StepKeepsInv(w.own, O.SaveOk(p));
    assert ProcessOk(w, p);
    forall q: O.Proc ensures ProcessOk(v, q) {
      assert ProcessOk(w, q);
      SaveOkKeepsProcess(w, p, q);
    }
    forall b: O.Backend ensures SaverOk(v, b) {
      assert SaverOk(w, b);
      SaveOkKeepsSaver(w, p, b);
    }
  }

  lemma StepKeepsInv(w: World, e: Event)
    requires Inv(w) && Enabled(w, e)
    ensures Inv(Apply(w, e))
  {
    match e
    case Change(p, i, health) => ChangeKeepsInv(w, p, i, health);
    case Own(e) =>
      if LeavesHealth(w.own, e) {
        InvGivesFacts(w.own);
        QuietEvent(w.own, e);
        O.StepKeepsInv(w.own, e);
        QuietKeepsInv(w, O.Apply(w.own, e));
      } else {
        match e
        case Load(p) => LoadKeepsInv(w, p);
        case Begin(p) => BeginKeepsInv(w, p);
        case ServerCommit(b) => CommitKeepsInv(w, b);
        case SaveOk(p) => SaveOkKeepsInv(w, p);
      }
  }

  // ----- Runs -----------------------------------------------------------------------------

  /** Rows from before the first process, and no connections. */
  ghost predicate Initial(w: World) {
    O.Initial(w.own) && RowsAreOld(w)
  }

  ghost predicate Possible(w: World, run: seq<Event>)
    decreases |run|
  {
    run != [] ==> Enabled(w, run[0]) && Possible(Apply(w, run[0]), run[1..])
  }

  ghost function After(w: World, run: seq<Event>): World
    requires Possible(w, run)
    decreases |run|
  {
    if run == [] then w else After(Apply(w, run[0]), run[1..])
  }

  /** A row is as it was, or holds a later version of the same owner, or a later owner's. */
  ghost predicate Later(x: Row, y: Row) {
    x == y || x.token < y.token || (x.token == y.token && x.version <= y.version)
  }

  /** Rows only go forward, and only the owner whose token is stored, or a later one, changes them. */
  ghost predicate Forwards(w: World, v: World) {
    && |v.rows| == |w.rows| && O.Epoch(w.own.db) <= O.Epoch(v.own.db)
    && forall i :: 0 <= i < |w.rows| ==>
         Later(w.rows[i], v.rows[i]) && (v.rows[i] == w.rows[i] || v.rows[i].token >= O.Epoch(w.own.db))
  }

  lemma CommitGoesForward(w: World, b: O.Backend)
    requires Facts(w.own) && RowsAreOld(w) && SaverOk(w, b)
    requires Enabled(w, Own(O.ServerCommit(b))) && w.own.db.live[b].work.Saving?
    ensures Forwards(w, Apply(w, Own(O.ServerCommit(b))))
  {
    assert ServerFacts(w.own, b);
  }

  lemma StepGoesForward(w: World, e: Event)
    requires Inv(w) && Enabled(w, e)
    ensures Forwards(w, Apply(w, e))
  {
    InvGivesFacts(w.own);
    if e.Own? {
      if e.e.ServerCommit? && w.own.db.live[e.e.b].work.Saving? {
        assert SaverOk(w, e.e.b);
        CommitGoesForward(w, e.e.b);
      } else if LeavesHealth(w.own, e.e) {
        QuietEvent(w.own, e.e);
      }
    }
  }

  lemma {:induction false} RunGoesForward(w: World, run: seq<Event>)
    requires Inv(w) && Possible(w, run)
    ensures Inv(After(w, run)) && Forwards(w, After(w, run))
    decreases |run|
  {
    if run != [] {
      var u := Apply(w, run[0]);
      StepKeepsInv(w, run[0]);
      StepGoesForward(w, run[0]);
      RunGoesForward(u, run[1..]);
      ForwardsOn(w, u, After(u, run[1..]));
    }
  }

  lemma ForwardsOn(w: World, u: World, v: World)
    requires Forwards(w, u) && Forwards(u, v)
    ensures Forwards(w, v)
  {
    forall i | 0 <= i < |w.rows|
      ensures Later(w.rows[i], v.rows[i]) && (v.rows[i] == w.rows[i] || v.rows[i].token >= O.Epoch(w.own.db))
    {
      assert Later(w.rows[i], u.rows[i]) && Later(u.rows[i], v.rows[i]);
    }
  }

  lemma InitialIsSound(w: World)
    requires Initial(w)
    ensures Inv(w)
  {
    assert O.Inv(w.own);
    forall p: O.Proc ensures ProcessOk(w, p) {
    }
    forall b: O.Backend ensures SaverOk(w, b) {
    }
  }

  /**
   However processes come and go, connections fail and saves end, while its token is
   stored a process's proxy with nothing unsaved is stored as it is. What is stored
   lies between the version it last saw confirmed and the one it has.
   */
  lemma SavedHealthIsStored(w: World, run: seq<Event>, p: O.Proc, i: nat)
    requires Initial(w) && Possible(w, run) && i < |w.rows|
    requires var v := After(w, run); p in v.own.procs && v.own.procs[p].token.Some? && v.own.db.token == v.own.procs[p].token
    ensures var v := After(w, run);
            && p in v.proxies && |v.proxies[p]| == |v.rows| == |w.rows|
            && var h := Seen(v.rows[i], v.own.procs[p].token.value);
               && v.proxies[p][i].saved <= h.version <= v.proxies[p][i].version
               && (!Unsaved(v.proxies[p], i) ==> v.proxies[p][i].health == Some(v.rows[i].body))
  {
    InitialIsSound(w);
    RunGoesForward(w, run);
    var v := After(w, run);
    assert ProcessOk(v, p);
    assert Bound(v.own.db, v.own.procs[p]);
    assert RowOk(v, p, i);
  }

  /** Once a newer token is stored, a process with an older one never changes stored health again. */
  lemma StaleOwnerSparesHealth(w: World, run: seq<Event>, more: seq<Event>, p: O.Proc)
    requires Initial(w) && Possible(w, run) && Possible(After(w, run), more)
    requires var v := After(w, run);
             p in v.own.procs && v.own.procs[p].token.Some? && v.own.procs[p].token.value < O.Epoch(v.own.db)
    ensures var v := After(w, run);
            var u := After(v, more);
            && |u.rows| == |v.rows|
            && forall i :: 0 <= i < |v.rows| ==>
                 Later(v.rows[i], u.rows[i]) && (u.rows[i].token == v.own.procs[p].token.value ==> u.rows[i] == v.rows[i])
  {
    InitialIsSound(w);
    RunGoesForward(w, run);
    RunGoesForward(After(w, run), more);
  }

  // ----- Saves can succeed ---------------------------------------------------------------------

  lemma FirstStep(w: World, e: Event, rest: seq<Event>)
    requires Enabled(w, e) && Possible(Apply(w, e), rest)
    ensures Possible(w, [e] + rest) && After(w, [e] + rest) == After(Apply(w, e), rest)
  {
    assert ([e] + rest)[1..] == rest;
  }

  lemma TwoSteps(w: World, a: Event, b: Event)
    requires Enabled(w, a) && Enabled(Apply(w, a), b)
    ensures Possible(w, [a, b]) && After(w, [a, b]) == Apply(Apply(w, a), b)
  {
    FirstStep(Apply(w, a), b, []);
    FirstStep(w, a, [b]);
    assert [b] + [] == [b] && [a] + [b] == [a, b];
  }

  lemma SaveIsBegun(w: World, p: O.Proc) returns (x: World)
    requires O.Inv(w.own) && S.CanSave(w.own, p)
    requires Encodable(Of(w, p)) && (w.own.procs[p].ram.dirty != {} || !NoneUnsaved(Of(w, p)))
    ensures Enabled(w, Own(O.Begin(p))) && x == Apply(w, Own(O.Begin(p)))
    ensures x.own == O.Apply(w.own, O.Begin(p)) && x.proxies == w.proxies && Batch(x.sent, p) == CollectedHealth(Of(w, p))
  {
    S.SaveBegins(w.own, p);
    x := Apply(w, Own(O.Begin(p)));
  }

  lemma SaveIsStored(x: World, p: O.Proc, b: O.Backend) returns (v: World)
    requires O.Enabled(x.own, O.SendCommit(b)) && O.Enabled(O.Apply(x.own, O.SendCommit(b)), O.ServerCommit(b))
    requires O.Enabled(O.Apply(O.Apply(x.own, O.SendCommit(b)), O.ServerCommit(b)), O.SaveOk(p))
    ensures Enabled(x, Own(O.SendCommit(b))) && v == Apply(x, Own(O.SendCommit(b))) && Enabled(v, Own(O.ServerCommit(b)))
    ensures Enabled(Apply(v, Own(O.ServerCommit(b))), Own(O.SaveOk(p)))
    ensures v.proxies == x.proxies && v.sent == x.sent
  {
    v := Apply(x, Own(O.SendCommit(b)));
  }

  lemma SaveSettles(v: World, p: O.Proc, b: O.Backend)
    requires Enabled(v, Own(O.ServerCommit(b))) && Enabled(Apply(v, Own(O.ServerCommit(b))), Own(O.SaveOk(p)))
    requires Encodable(Of(v, p)) && Batch(v.sent, p) == CollectedHealth(Of(v, p))
    ensures NoneUnsaved(Of(Apply(Apply(v, Own(O.ServerCommit(b))), Own(O.SaveOk(p))), p))
  {
    SaveSettlesHealth(Of(v, p));
  }

  ghost function SaveRun(p: O.Proc, b: O.Backend): seq<Event> {
    [Own(O.Begin(p))] + ([Own(O.SendCommit(b))] + [Own(O.ServerCommit(b)), Own(O.SaveOk(p))])
  }

  lemma SaveRunSettles(v: World, p: O.Proc)
    requires O.Inv(v.own) && S.CanSave(v.own, p) && Encodable(Of(v, p)) && !NoneUnsaved(Of(v, p))
    ensures var more := SaveRun(p, v.own.procs[p].link.b);
            Possible(v, more) && NoneUnsaved(Of(After(v, more), p))
  {
    var b := v.own.procs[p].link.b;
    var x := SaveIsBegun(v, p);
    S.SaveBegins(v.own, p);
    S.SaveIsSent(x.own, p);
    var y := SaveIsStored(x, p, b);
    SaveSettles(y, p, b);
    var last := [Own(O.ServerCommit(b)), Own(O.SaveOk(p))];
    TwoSteps(y, last[0], last[1]);
    FirstStep(x, Own(O.SendCommit(b)), last);
    FirstStep(v, Own(O.Begin(p)), [Own(O.SendCommit(b))] + last);
  }

  /** A confirmed owner can always save its proxies' health: four events leave none of it unsaved. */
  lemma HealthCanBeSaved(w: World, run: seq<Event>, p: O.Proc)
    requires Initial(w) && Possible(w, run)
    requires var v := After(w, run); S.CanSave(v.own, p) && Encodable(Of(v, p)) && !NoneUnsaved(Of(v, p))
    ensures var v := After(w, run);
            var more := SaveRun(p, v.own.procs[p].link.b);
            Possible(v, more) && NoneUnsaved(Of(After(v, more), p))
  {
    InitialIsSound(w);
    RunGoesForward(w, run);
    SaveRunSettles(After(w, run), p);
  }
}
