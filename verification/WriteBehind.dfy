/**
 The RAM side of the identity store: which checkpoints are still unsaved, what
 one save collects, and what a successful save forgets.

 A checkpoint is identified by its number: the value of the pool's checkpoint
 counter when it was taken. The source compares the checkpoints by identity;
 numbers are unique for the same reason, because every checkpoint is a new one.
 */
module WriteBehind {
  import opened Common

  /** What one checkpoint preserves of an identity. */
  datatype Content = Content(session: string, health: string, assignments: nat)

  datatype Checkpoint = Checkpoint(number: nat, state: Content)

  /** A lease that finished: the identity and the complete state it left. */
  datatype Finished = Finished(id: string, state: Content)

  datatype Ram = Ram(pending: map<string, Checkpoint>, dirty: set<string>, checkpoints: nat, saved: nat)

  datatype Batch = Batch(written: map<string, Checkpoint>, through: nat)

  // ----- What each step does to the RAM state ------------------------------

  ghost function Checkpointed(r: Ram, f: Finished): Ram {
    Ram(r.pending[f.id := Checkpoint(r.checkpoints + 1, f.state)], r.dirty + {f.id}, r.checkpoints + 1, r.saved)
  }

  ghost function Collected(r: Ram): Batch {
    Batch(map id | id in r.dirty && id in r.pending :: r.pending[id], r.checkpoints)
  }

  /** The pending checkpoints that a save of `b` settles: those still unchanged. */
  ghost predicate Settles(r: Ram, b: Batch, id: string) {
    id in b.written && id in r.pending && r.pending[id] == b.written[id]
  }

  ghost function Saved(r: Ram, b: Batch): Ram {
    Ram(map id | id in r.pending && !Settles(r, b, id) :: r.pending[id],
        (set id | id in r.dirty && !Settles(r, b, id)),
        r.checkpoints,
        if r.saved < b.through then b.through else r.saved)
  }

  /**
   A proxy route's health, None if it cannot be encoded. Every change of it gets the
   next version; `saved` is the version of the last confirmed save.
   */
  datatype Proxy = Proxy(health: Option<string>, version: nat, saved: nat)

  datatype Health = Health(version: nat, body: string)

  ghost predicate Unsaved(proxies: seq<Proxy>, i: nat) {
    i < |proxies| && proxies[i].saved < proxies[i].version
  }

  /** Every proxy with unsaved health can be encoded. */
  ghost predicate Encodable(proxies: seq<Proxy>) {
    forall i {:trigger proxies[i]} :: 0 <= i < |proxies| && Unsaved(proxies, i) ==> proxies[i].health.Some?
  }

  ghost function CollectedHealth(proxies: seq<Proxy>): map<nat, Health>
    requires Encodable(proxies)
  {
    map i: nat | 0 <= i < |proxies| && Unsaved(proxies, i) :: Health(proxies[i].version, proxies[i].health.value)
  }

  /** A save never takes the saved version back. */
  ghost function SavedHealth(proxies: seq<Proxy>, batch: map<nat, Health>): (r: seq<Proxy>)
    ensures |r| == |proxies|
  {
    seq(|proxies|, i requires 0 <= i < |proxies| =>
      if i in batch && batch[i].version > proxies[i].saved then proxies[i].(saved := batch[i].version) else proxies[i])
  }

  // ----- The invariant ------------------------------------------------------

  /** Checkpoint `c` of `id` is the one that finished as number `c.number`. */
  ghost predicate Authentic(history: seq<Finished>, id: string, c: Checkpoint) {
    1 <= c.number <= |history| && history[c.number - 1] == Finished(id, c.state)
  }

  /** `n` is at or after every checkpoint of `id`. */
  ghost predicate Latest(history: seq<Finished>, id: string, n: nat) {
    forall k {:trigger history[k]} :: 0 <= k < |history| && history[k].id == id ==> k < n
  }

  /**
   An identity is dirty exactly when it has a pending checkpoint, and a pending
   checkpoint is always the newest one of its identity.
   */
  ghost predicate RamOk(r: Ram, history: seq<Finished>) {
    && r.dirty == r.pending.Keys
    && r.checkpoints == |history|
    && r.saved <= r.checkpoints
    && forall id <- r.pending :: Authentic(history, id, r.pending[id]) && Latest(history, id, r.pending[id].number)
  }

  /** A batch holds real checkpoints, and counts none that was not yet taken. */
  ghost predicate BatchOk(b: Batch, history: seq<Finished>) {
    && b.through <= |history|
    && forall id <- b.written :: Authentic(history, id, b.written[id])
  }

  lemma CheckpointKeepsRam(r: Ram, history: seq<Finished>, f: Finished)
    requires RamOk(r, history)
    ensures RamOk(Checkpointed(r, f), history + [f])
  {
    var r', h' := Checkpointed(r, f), history + [f];
    forall id | id in r'.pending
      ensures Authentic(h', id, r'.pending[id]) && Latest(h', id, r'.pending[id].number)
    {
      if id != f.id {
        assert Latest(history, id, r.pending[id].number);
      }
    }
  }

  lemma SaveKeepsRam(r: Ram, history: seq<Finished>, b: Batch)
    requires RamOk(r, history) && BatchOk(b, history)
    ensures RamOk(Saved(r, b), history)
  {
  }

  lemma CollectIsBatch(r: Ram, history: seq<Finished>)
    requires RamOk(r, history)
    ensures BatchOk(Collected(r), history)
    ensures Collected(r).written == r.pending
    ensures Collected(r).through == |history|
  {
  }

  // ----- What a save leaves unsaved ------------------------------------------------

  /** Leases that finish one after another. */
  ghost function Finishing(r: Ram, fs: seq<Finished>): Ram {
    if fs == [] then r else Checkpointed(Finishing(r, fs[..|fs| - 1]), fs[|fs| - 1])
  }

  lemma {:induction false} FinishingCounts(r: Ram, fs: seq<Finished>)
    ensures Finishing(r, fs).checkpoints == r.checkpoints + |fs| && Finishing(r, fs).saved == r.saved
    ensures forall id: string :: (exists f <- fs :: f.id == id) ==> id in Finishing(r, fs).pending && Finishing(r, fs).pending[id].number > r.checkpoints
    ensures forall id: string :: !(exists f <- fs :: f.id == id) ==>
              (id in Finishing(r, fs).pending <==> id in r.pending) && (id in r.pending ==> Finishing(r, fs).pending[id] == r.pending[id])
    ensures Finishing(r, fs).dirty == r.dirty + set f <- fs :: f.id
  {
    if fs != [] {
      var before, f := fs[..|fs| - 1], fs[|fs| - 1];
      FinishingCounts(r, before);
      assert fs == before + [f];
    }
  }

  /**
   A confirmed save leaves exactly those identities unsaved whose leases finished
   after it was collected, and `saved` tells of all checkpoints taken before that.
   */
  lemma SaveLeavesOnlyNewer(r: Ram, history: seq<Finished>, fs: seq<Finished>)
    requires RamOk(r, history)
    ensures var s := Saved(Finishing(r, fs), Collected(r));
            && s.dirty == (set f <- fs :: f.id) == s.pending.Keys
            && s.saved == r.checkpoints && s.checkpoints == r.checkpoints + |fs|
  {
    var b, t := Collected(r), Finishing(r, fs);
    FinishingCounts(r, fs);
    forall id: string ensures id in t.pending && !Settles(t, b, id) <==> exists f <- fs :: f.id == id {
      if id in r.pending {
        assert Authentic(history, id, r.pending[id]);
      }
    }
  }

  /** A confirmed save of proxy health counts as saved what it wrote, and takes nothing else back or forward. */
  lemma SavedHealthIsExact(proxies: seq<Proxy>, batch: map<nat, Health>, i: nat)
    requires i < |proxies|
    ensures var p, q := proxies[i], SavedHealth(proxies, batch)[i];
            && q.health == p.health && q.version == p.version && p.saved <= q.saved
            && (i in batch ==> batch[i].version <= q.saved)
            && (i !in batch || batch[i].version <= p.saved ==> q == p)
            && (q.saved > p.saved ==> i in batch && q.saved == batch[i].version)
  {
  }

  /** With no change in between, a confirmed save leaves no proxy's health unsaved. */
  lemma SaveSettlesHealth(proxies: seq<Proxy>)
    requires Encodable(proxies)
    ensures forall i: nat :: !Unsaved(SavedHealth(proxies, CollectedHealth(proxies)), i)
  {
  }

  /** With changes in between, exactly the proxies that changed are still unsaved. */
  lemma SaveLeavesOnlyChanged(proxies: seq<Proxy>, now: seq<Proxy>, i: nat)
    requires Encodable(proxies) && |now| == |proxies| && i < |proxies| && proxies[i].saved <= proxies[i].version
    requires now[i].saved == proxies[i].saved && now[i].version >= proxies[i].version
    ensures Unsaved(SavedHealth(now, CollectedHealth(proxies)), i) <==> now[i].version > proxies[i].version
  {
    assert Unsaved(proxies, i) <==> i in CollectedHealth(proxies);
  }

  // ----- The pool ------------------------------------------------------------

  /** One collected save, in the order the identities happened to be visited. */
  datatype SaveBatch = SaveBatch(
    entries: seq<string>, written: seq<Checkpoint>,
    proxies: seq<nat>, health: seq<Health>,
    through: nat)
  {
    ghost predicate Is(b: Batch) {
      && |entries| == |written|
      && through == b.through
      && (forall i, j :: 0 <= i < j < |entries| ==> entries[i] != entries[j])
      && (forall i :: 0 <= i < |entries| ==> entries[i] in b.written && b.written[entries[i]] == written[i])
      && (forall id <- b.written :: id in entries)
    }

    /** The proxies' health in it is exactly `m`. */
    ghost predicate Carries(m: map<nat, Health>) {
      && |proxies| == |health|
      && (forall i, j :: 0 <= i < j < |proxies| ==> proxies[i] != proxies[j])
      && (forall i :: 0 <= i < |proxies| ==> proxies[i] in m && m[proxies[i]] == health[i])
      && (forall p <- m :: p in proxies)
    }
  }

  class Pool {
    var pending: map<string, Checkpoint>
    var dirty: set<string>
    var checkpoints: nat
    var saved: nat
    var proxies: seq<Proxy>
    var awake: bool                  // the saving loop has been told of something to save
    var notified: nat                // how often those who wait for a save were woken
    ghost var history: seq<Finished>

    ghost function View(): Ram
      reads this
    {
      Ram(pending, dirty, checkpoints, saved)
    }

    ghost predicate Valid()
      reads this
    {
      RamOk(View(), history)
    }

    constructor (proxies: seq<Proxy>)
      ensures Valid() && history == [] && this.proxies == proxies
      ensures View() == Ram(map[], {}, 0, 0)
    {
      pending, dirty, checkpoints, saved, this.proxies := map[], {}, 0, 0, proxies;
      awake, notified := false, 0;
      history := [];
    }

    /** Records a finished lease; `health` is None when its state cannot be encoded. */
    method CheckpointLocked(id: string, session: string, health: Option<string>, assignments: nat)
      requires Valid()
      modifies this`pending, this`dirty, this`checkpoints, this`awake, this`history
      ensures Valid()
      ensures health.None? ==> View() == old(View()) && history == old(history) && awake == old(awake)
      ensures health.Some? ==>
                var f := Finished(id, Content(session, health.value, assignments));
                history == old(history) + [f] && View() == Checkpointed(old(View()), f) && awake
    {
      if health.None? {
        return;
      }
      var state := Content(session, health.value, assignments);
      ghost var f := Finished(id, state);
      CheckpointKeepsRam(View(), history, f);
      pending := pending[id := Checkpoint(checkpoints + 1, state)];
      dirty := dirty + {id};
      checkpoints := checkpoints + 1;
      awake := true;
      history := history + [f];
    }

    /** Everything unsaved now, or None if a proxy's health cannot be encoded. */
    method CollectLocked() returns (r: Option<SaveBatch>)
      requires Valid()
      ensures r.Some? <==> Encodable(proxies)
      ensures r.Some? ==> r.value.Is(Collected(View())) && r.value.Carries(CollectedHealth(proxies))
    {
      var entries, written := CollectEntries();
      var ps: seq<nat>, health: seq<Health> := [], [];
      for i := 0 to |proxies|
        invariant forall j {:trigger proxies[j]} :: 0 <= j < i && Unsaved(proxies, j) ==> proxies[j].health.Some?
        invariant |ps| == |health|
        invariant forall j, k :: 0 <= j < k < |ps| ==> ps[j] < ps[k]
        invariant forall k :: 0 <= k < |ps| ==>
                    ps[k] < i && Unsaved(proxies, ps[k]) && Some(health[k].body) == proxies[ps[k]].health && health[k].version == proxies[ps[k]].version
        invariant forall j: nat {:trigger Unsaved(proxies, j)} :: j < i && Unsaved(proxies, j) ==> j in ps
      {
        var p := proxies[i];
        assert Unsaved(proxies, i) <==> p.saved < p.version;
        if p.saved < p.version {
          if p.health.None? {
            return None;
          }
          ghost var was := ps;
          ps, health := ps + [i], health + [Health(p.version, p.health.value)];
          assert ps[|was|] == i;
          assert forall j <- was :: j in ps;
        }
      }
      return Some(SaveBatch(entries, written, ps, health, checkpoints));
    }

    method CollectEntries() returns (entries: seq<string>, written: seq<Checkpoint>)
      requires Valid()
      ensures SaveBatch(entries, written, [], [], checkpoints).Is(Collected(View()))
    {
      entries, written := [], [];
      var rest := dirty;
      while rest != {}
        invariant rest <= dirty
        invariant |entries| == |written|
        invariant forall i, j :: 0 <= i < j < |entries| ==> entries[i] != entries[j]
        invariant forall i :: 0 <= i < |entries| ==> entries[i] in dirty - rest && pending[entries[i]] == written[i]
        invariant forall id <- dirty - rest :: id in entries
        decreases rest
      {
        var e :| e in rest;
        entries, written := entries + [e], written + [pending[e]];
        rest := rest - {e};
      }
    }

    /** Forgets what a save has stored; a newer checkpoint of the same identity stays dirty. */
    method SavedLocked(b: SaveBatch, ghost of: Batch, ghost sent: map<nat, Health>)
      requires Valid() && b.Is(of) && BatchOk(of, history)
      requires b.Carries(sent) && forall i <- sent :: i < |proxies|
      modifies this`pending, this`dirty, this`saved, this`proxies, this`notified
      ensures Valid()
      ensures View() == Saved(old(View()), of)
      ensures proxies == SavedHealth(old(proxies), sent)
      ensures notified == old(notified) + 1
      ensures saved >= b.through && saved >= old(saved)
    {
      SaveKeepsRam(View(), history, of);
      SaveEntries(b, of);
      SaveProxies(b, sent);
      saved := if saved < b.through then b.through else saved;
      notified := notified + 1;
    }

    method SaveEntries(b: SaveBatch, ghost of: Batch)
      requires b.Is(of)
      modifies this`pending, this`dirty
      ensures pending == Saved(old(View()), of).pending && dirty == Saved(old(View()), of).dirty
    {
      ghost var was := View();
      for i := 0 to |b.entries|
        invariant dirty == set id | id in was.dirty && !(id in b.entries[..i] && Settles(was, of, id))
        invariant pending == map id | id in was.pending && !(id in b.entries[..i] && Settles(was, of, id)) :: was.pending[id]
      {
        var e := b.entries[i];
        assert b.entries[..i + 1] == b.entries[..i] + [e];
        assert e !in b.entries[..i];
        if e in pending && pending[e] == b.written[i] {
          assert Settles(was, of, e);
          pending := map id | id in pending && id != e :: pending[id];
          dirty := dirty - {e};
        }
      }
      assert b.entries[..|b.entries|] == b.entries;
    }

    method SaveProxies(b: SaveBatch, ghost sent: map<nat, Health>)
      requires b.Carries(sent) && forall i <- sent :: i < |proxies|
      modifies this`proxies
      ensures proxies == SavedHealth(old(proxies), sent)
    {
      for k := 0 to |b.proxies|
        invariant |proxies| == |old(proxies)|
        invariant forall i :: 0 <= i < |proxies| ==>
                    proxies[i] == if i in b.proxies[..k] then SavedHealth(old(proxies), sent)[i] else old(proxies)[i]
      {
        var i := b.proxies[k];
        assert b.proxies[..k + 1] == b.proxies[..k] + [i];
        assert i !in b.proxies[..k];
        var v := b.health[k].version;
        proxies := proxies[i := proxies[i].(saved := if proxies[i].saved < v then v else proxies[i].saved)];
      }
      assert b.proxies[..|b.proxies|] == b.proxies;
    }
  }
}
