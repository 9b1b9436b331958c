/**
 Runs of a ranged download: every event keeps the invariant, and a download that
 succeeds holds one version of the file, whole.
 */
module DownloadRuns {
  import opened Common
  import opened Ranges
  import opened Spool
  import opened SpoolRuns
  import opened SpoolContents
  import opened RangedDownload

  // ----- Every event keeps the invariant -----------------------------------------------------------------

  ghost function Moved(d: Download, e: SpoolRuns.Event): Download
    requires SlotOk(d.slot) && SlotEnabled(d.slot, e)
  {
    var (s, k) := SlotStep(d.slot, d.books, e);
    d.(slot := s, books := k)
  }

  lemma MoveKeepsInv(files: Files, v: Bytes, d: Download, e: SpoolRuns.Event)
    requires Inv(files, v, d) && SlotEnabled(d.slot, e) && FaithfulEvent(d.slot, e, v)
    requires IsLocal(e) || ((e.BeginWrite? || e.Append?) && !(d.firstDone && d.plan.end < 0))
    ensures Inv(files, v, Moved(d, e))
  {
    var (s, k) := SlotStep(d.slot, d.books, e);
    StepIsFaithful(d.slot, d.books, e, s, k, v);
    StepKeepsRanges(d.slot, d.books, e, s, k);
    SlotMoves(files, v, d, s, k);
  }

  /** The write of `n` more bytes of the first response. */
  ghost function BodyWrite(d: Download, n: nat, spill: bool, write: bool, garbage: Bytes): SpoolRuns.Event
    requires 0 in d.slot.b.regions && d.slot.b.regions[0].Next() + n <= |d.plan.r.body|
  {
    var at := d.slot.b.regions[0].Next();
    Writing(d.slot.b, 0, d.plan.r.body[at..at + n], spill, write, garbage)
  }

  /** Bytes of the first response within what it carries are the file's. */
  lemma FirstBelongs(files: Files, v: Bytes, p: Plan, at: nat, n: nat)
    requires Aims(files, p, v) && n > 0 && at + n <= |p.r.body| && (p.end >= 0 ==> at + n <= p.end)
    ensures Belongs(v, at, p.r.body[at..at + n])
  {
    assert p.r.body[at + n - 1] in p.r.body && at + n <= |v|;
    var q := p.r.body[at..at + n];
    forall i | 0 <= i < n ensures q[i] == v[at + i] {
      assert p.r.body[at + i] == v[at + i];
    }
  }

  /** Writing `p` next is an append or the begin of a copy. */
  ghost function Writing(b: Buffer, id: nat, p: Bytes, spill: bool, write: bool, garbage: Bytes): SpoolRuns.Event
    requires id in b.regions
  {
    if Begin(b, id, |p|).Appending? then SpoolRuns.Append(0, id, p, spill, write, garbage) else BeginWrite(0, id, p)
  }

  lemma WritingIsFaithful(s: Slot, id: nat, p: Bytes, spill: bool, write: bool, garbage: Bytes, v: Bytes)
    requires id in s.b.regions && id !in s.flights && p != []
    requires Belongs(v, s.b.regions[id].Next(), p)
    ensures SlotEnabled(s, Writing(s.b, id, p, spill, write, garbage)) && FaithfulEvent(s, Writing(s.b, id, p, spill, write, garbage), v)
  {
  }

  lemma BodyBelongs(files: Files, v: Bytes, d: Download, n: nat, spill: bool, write: bool, garbage: Bytes)
    requires Inv(files, v, d) && Enabled(files, d, Body(n, spill, write, garbage))
    ensures SlotEnabled(d.slot, BodyWrite(d, n, spill, write, garbage)) && FaithfulEvent(d.slot, BodyWrite(d, n, spill, write, garbage), v)
  {
    var at := d.slot.b.regions[0].Next();
    FirstBelongs(files, v, d.plan, at, n);
    WritingIsFaithful(d.slot, 0, d.plan.r.body[at..at + n], spill, write, garbage, v);
  }

  /** The write of `n` more bytes of worker `w`'s response. */
  ghost function PartWrite(d: Download, w: nat, n: nat): SpoolRuns.Event
    requires Streaming(d, w) && n > 0
    requires var i, st := d.job.value.workers[w].index, d.job.value.workers[w].stream.value;
             && Id(i) in d.slot.b.regions && st.base <= d.slot.b.regions[Id(i)].Next()
             && d.slot.b.regions[Id(i)].Next() - st.base + n <= |st.r.body|
  {
    var i, st := d.job.value.workers[w].index, d.job.value.workers[w].stream.value;
    var at := d.slot.b.regions[Id(i)].Next() - st.base;
    BeginWrite(0, Id(i), st.r.body[at..at + n])
  }

  /** The range of the part worker `w` is fetching. */
  lemma PartRange(files: Files, d: Download, j: Job, w: nat)
    requires JobOk(files, d, j) && w in j.workers && j.workers[w].Fetching? && Id(j.workers[w].index) in d.slot.b.regions
    ensures var i := j.workers[w].index; i < Handed(j) && d.slot.b.regions[Id(i)].end == j.parts.End(i) <= d.plan.total
  {
    assert WorkerOk(files, d, j, w) && RangeOk(d.slot.b, j, Id(j.workers[w].index));
    var c :| c > 0 && j.parts == Cut(d.plan.end, d.plan.total, c);
    PartsTile(d.plan.end, d.plan.total, c);
  }

  lemma StreamBelongs(files: Files, v: Bytes, p: Plan, r: Region, st: Stream, n: nat)
    requires Aims(files, p, v) && p.ranged && p.total > p.end && Honest(files, st.r)
    requires st.base < r.end <= p.total && Judge(p, st.base, r.end, st.r) == Accepted
    requires st.base <= r.Next() && r.Next() + n <= r.end && r.Next() - st.base + n <= |st.r.body|
    ensures Belongs(v, r.Next(), st.r.body[r.Next() - st.base..r.Next() - st.base + n])
  {
    AcceptedBelongs(files, p, v, st.base, r.end, st.r, r.Next() - st.base, n);
  }

  lemma PartBelongs(files: Files, v: Bytes, d: Download, w: nat, n: nat)
    requires Inv(files, v, d) && Enabled(files, d, Push(w, n))
    ensures SlotEnabled(d.slot, PartWrite(d, w, n)) && FaithfulEvent(d.slot, PartWrite(d, w, n), v)
  {
    var j := d.job.value;
    var i, st := j.workers[w].index, j.workers[w].stream.value;
    var r := d.slot.b.regions[Id(i)];
    PartRange(files, d, j, w);
    assert WorkerOk(files, d, j, w);
    if r.Next() + n <= r.end {
      StreamBelongs(files, v, d.plan, r, st, n);
    }
  }

  // Handing out a part.

  /** The writer for the next index. */
  ghost function NextPart(j: Job): SpoolRuns.Event {
    OpenWriter(0, Id(j.next), j.parts.Start(j.next), j.parts.End(j.next))
  }

  ghost function Claimed(d: Download, w: nat): Download
    requires IsFree(d, w) && SlotOk(d.slot)
    requires d.job.value.next < d.job.value.parts.count ==> SlotEnabled(d.slot, NextPart(d.job.value))
  {
    var j := d.job.value;
    if j.next >= j.parts.count then d.(job := Some(Passing(j, w)))
    else Moved(d, NextPart(j)).(job := Some(Handing(j, w)))
  }

  ghost function Handing(j: Job, w: nat): Job {
    Set(j, w, Fetching(j.next, None)).(next := j.next + 1)
  }

  /** The indexes have run out: the worker is finished. */
  ghost function Passing(j: Job, w: nat): Job {
    Set(j, w, Exited).(next := j.next + 1)
  }

  /** Range `id` ends before part `i` begins, if its own part comes earlier. */
  lemma EndsBefore(b: Buffer, j: Job, id: nat, i: nat)
    requires id in b.regions && 0 in b.regions && b.regions[0].end == j.parts.from && RangeOk(b, j, id) && Handed(j) <= i
    ensures b.regions[id].end <= j.parts.Start(i)
  {
    if id > 0 {
      OrderedParts(j.parts, id - 1, i);
    }
  }

  lemma PartMayOpen(files: Files, v: Bytes, d: Download, j: Job)
    requires Inv(files, v, d) && d.job == Some(j) && j.next < j.parts.count
    ensures MayOpen(d.slot.b, Id(j.next), j.parts.Start(j.next), j.parts.End(j.next))
  {
    var b := d.slot.b;
    var c :| c > 0 && j.parts == Cut(d.plan.end, d.plan.total, c);
    PartsTile(d.plan.end, d.plan.total, c);
    assert RangeOk(b, j, Id(j.next));
    assert Id(j.next) !in b.regions;
    forall k | 0 <= k < |b.order|
      ensures b.order[k] in b.regions && b.order[k] != Id(j.next)
      ensures 0 <= b.regions[b.order[k]].end <= j.parts.Start(j.next)
    {
      var id := b.order[k];
      assert RangeOk(b, j, id);
      EndsBefore(b, j, id, j.next);
    }
  }

  lemma ClaimKeepsJob(files: Files, d: Download, s: Slot, k: Books, j: Job, w: nat)
    requires JobOk(files, d, j) && w in j.workers && j.workers[w].Free? && j.next < j.parts.count
    requires s.b.regions == d.slot.b.regions[Id(j.next) := Region(j.parts.Start(j.next), j.parts.End(j.next), 0)]
    ensures JobOk(files, d.(slot := s, books := k), Handing(j, w))
  {
    var j' := Handing(j, w);
    var d' := d.(slot := s, books := k);
    assert Accounted(d.slot.b, j, j.next) && RangeOk(d.slot.b, j, Id(j.next));
    forall id: nat ensures RangeOk(s.b, j', id) {
      assert RangeOk(d.slot.b, j, id);
    }
    forall u: nat ensures WorkerOk(files, d', j', u) {
      assert WorkerOk(files, d, j, u);
    }
    forall u: nat, x: nat ensures Distinct(j', u, x) {
      assert Distinct(j, u, x) && WorkerOk(files, d, j, u) && WorkerOk(files, d, j, x);
    }
    forall i: nat ensures Accounted(s.b, j', i) {
      ClaimAccounts(d.slot.b, s.b, j, w, i);
    }
  }

  lemma ClaimAccounts(b: Buffer, b': Buffer, j: Job, w: nat, i: nat)
    requires Accounted(b, j, i) && w in j.workers && j.workers[w].Free? && j.next < j.parts.count
    requires forall id <- b.regions :: id != Id(j.next) ==> id in b'.regions && b'.regions[id] == b.regions[id]
    ensures Accounted(b', Set(j, w, Fetching(j.next, None)).(next := j.next + 1), i)
  {
    var j' := Set(j, w, Fetching(j.next, None)).(next := j.next + 1);
    if i < j.next && !j.err && i !in j.done {
      var u :| u in j.workers && j.workers[u].Fetching? && j.workers[u].index == i;
      assert u in j'.workers && j'.workers[u] == j.workers[u];
    } else if i == j.next {
      assert w in j'.workers && j'.workers[w].Fetching? && j'.workers[w].index == i;
    }
  }

  lemma PassKeepsJob(files: Files, d: Download, j: Job, w: nat)
    requires JobOk(files, d, j) && w in j.workers && j.workers[w].Free? && j.next >= j.parts.count
    ensures JobOk(files, d, Passing(j, w))
  {
    var j' := Passing(j, w);
    forall id: nat ensures RangeOk(d.slot.b, j', id) {
      assert RangeOk(d.slot.b, j, id);
    }
    forall u: nat ensures WorkerOk(files, d, j', u) {
      assert WorkerOk(files, d, j, u);
    }
    forall u: nat, x: nat ensures Distinct(j', u, x) {
      assert Distinct(j, u, x);
    }
    forall i: nat ensures Accounted(d.slot.b, j', i) {
      assert Accounted(d.slot.b, j, i);
      if i < Handed(j) && !j.err && i !in j.done {
        var u :| u in j.workers && j.workers[u].Fetching? && j.workers[u].index == i;
        assert u in j'.workers && j'.workers[u] == j.workers[u];
      }
    }
  }

  lemma OpenedKeepsInv(files: Files, v: Bytes, d: Download, s: Slot, k: Books, j: Job, w: nat)
    requires Inv(files, v, d) && d.job == Some(j) && w in j.workers && j.workers[w].Free? && j.next < j.parts.count
    requires SlotOk(s) && Faithful(s, v) && s.b.size == d.slot.b.size
    requires s.b.regions == d.slot.b.regions[Id(j.next) := Region(j.parts.Start(j.next), j.parts.End(j.next), 0)]
    ensures Inv(files, v, d.(slot := s, books := k, job := Some(Handing(j, w))))
  {
    ClaimKeepsJob(files, d, s, k, j, w);
    assert JobOk(files, d.(slot := s, books := k, job := Some(Handing(j, w))), Handing(j, w)) by {
      JobIgnoresItself(files, d.(slot := s, books := k), d.(slot := s, books := k, job := Some(Handing(j, w))), Handing(j, w));
    }
  }

  /** `JobOk` reads the plan and the slot only. */
  lemma JobIgnoresItself(files: Files, d: Download, d': Download, j: Job)
    requires JobOk(files, d, j) && d'.plan == d.plan && d'.slot.b == d.slot.b
    ensures JobOk(files, d', j)
  {
    forall w: nat ensures WorkerOk(files, d', j, w) {
      assert WorkerOk(files, d, j, w);
    }
  }

  lemma OpenStep(s: Slot, k: Books, id: nat, start: nat, end: int, s': Slot, k': Books, v: Bytes)
    requires SlotOk(s) && Faithful(s, v) && MayOpen(s.b, id, start, end)
    requires (s', k') == SlotStep(s, k, OpenWriter(0, id, start, end))
    ensures SlotOk(s') && Faithful(s', v) && s'.b.size == s.b.size && s'.b.regions == s.b.regions[id := Region(start, end, 0)]
  {
    StepIsFaithful(s, k, OpenWriter(0, id, start, end), s', k', v);
  }

  lemma HandKeepsInv(files: Files, v: Bytes, d: Download, j: Job, w: nat, s: Slot, k: Books)
    requires Inv(files, v, d) && d.job == Some(j) && w in j.workers && j.workers[w].Free? && j.next < j.parts.count
    requires SlotEnabled(d.slot, NextPart(j)) && (s, k) == SlotStep(d.slot, d.books, NextPart(j))
    ensures Inv(files, v, d.(slot := s, books := k, job := Some(Handing(j, w))))
  {
    OpenStep(d.slot, d.books, Id(j.next), j.parts.Start(j.next), j.parts.End(j.next), s, k, v);
    OpenedKeepsInv(files, v, d, s, k, j, w);
  }

  lemma PassKeepsInv(files: Files, v: Bytes, d: Download, j: Job, w: nat)
    requires Inv(files, v, d) && d.job == Some(j) && w in j.workers && j.workers[w].Free? && j.next >= j.parts.count
    ensures Inv(files, v, d.(job := Some(Passing(j, w))))
  {
    PassKeepsJob(files, d, j, w);
    JobIgnoresItself(files, d, d.(job := Some(Passing(j, w))), Passing(j, w));
  }

  lemma ClaimKeepsInv(files: Files, v: Bytes, d: Download, w: nat)
    requires Inv(files, v, d) && IsFree(d, w)
    ensures d.job.value.next < d.job.value.parts.count ==> SlotEnabled(d.slot, NextPart(d.job.value))
    ensures Inv(files, v, Claimed(d, w))
  {
    var j := d.job.value;
    if j.next >= j.parts.count {
      PassKeepsInv(files, v, d, j, w);
    } else {
      PartMayOpen(files, v, d, j);
      var (s, k) := SlotStep(d.slot, d.books, NextPart(j));
      HandKeepsInv(files, v, d, j, w, s, k);
    }
  }

  // The other steps of a worker.

  lemma WorkerKeepsInv(files: Files, v: Bytes, d: Download, j: Job, w: nat, worker: Worker, err: bool, cancelled: bool, done: set<nat>)
    requires Inv(files, v, d) && d.job == Some(j) && MayMove(files, d, j, w, worker, err, cancelled, done)
    ensures Inv(files, v, d.(job := Some(Set(j, w, worker).(err := err, cancelled := cancelled, done := done))))
  {
    var j' := Set(j, w, worker).(err := err, cancelled := cancelled, done := done);
    WorkerMoves(files, d, j, w, worker, err, cancelled, done);
    JobIgnoresItself(files, d, d.(job := Some(j')), j');
  }

  /** What worker `w` does with a response. */
  ghost function Responded(d: Download, w: nat, r: Response): Download
    requires Idle(d, w)
  {
    var j := d.job.value;
    var i := j.workers[w].index;
    var offset := d.slot.b.regions[Id(i)].Next();
    match Judge(d.plan, offset, j.parts.End(i), r)
    case Changed => d.(job := Some(Failing(j, w)))
    case Invalid => d
    case Accepted => d.(job := Some(Set(j, w, Fetching(i, Some(Stream(r, offset))))))
  }

  /** The first failure of a part stops the whole job. */
  ghost function Failing(j: Job, w: nat): Job {
    Set(j, w, Exited).(err := true, cancelled := true)
  }

  /**
   What becomes of a job: a changed file fails it for good, an unusable response
   leaves the part to be asked for again, a good one is copied from where the part stands.
   */
  lemma ResponsesDecide(d: Download, w: nat, r: Response)
    requires Idle(d, w)
    ensures var j := d.job.value;
            var i := j.workers[w].index;
            var offset := d.slot.b.regions[Id(i)].Next();
            var u := Responded(d, w, r);
            && u.slot == d.slot && u.job.Some?
            && (Judge(d.plan, offset, j.parts.End(i), r) == Changed <==> u.job.value.err && u.job.value.cancelled && u.job.value.workers[w].Exited?)
            && (Judge(d.plan, offset, j.parts.End(i), r) == Invalid ==> u == d)
            && (Judge(d.plan, offset, j.parts.End(i), r) == Accepted ==>
                  u.job.value.workers[w] == Fetching(i, Some(Stream(r, offset))) && u.job.value.err == j.err && u.job.value.cancelled == j.cancelled)
  {
  }

  lemma RespondKeepsInv(files: Files, v: Bytes, d: Download, w: nat, r: Response)
    requires Inv(files, v, d) && Enabled(files, d, Respond(w, r))
    ensures Inv(files, v, Responded(d, w, r))
  {
    var j := d.job.value;
    var i := j.workers[w].index;
    var offset := d.slot.b.regions[Id(i)].Next();
    match Judge(d.plan, offset, j.parts.End(i), r)
    case Changed => WorkerKeepsInv(files, v, d, j, w, Exited, true, true, j.done);
    case Invalid =>
    case Accepted =>
      var worker := Fetching(i, Some(Stream(r, offset)));
      WorkerKeepsInv(files, v, d, j, w, worker, j.err, j.cancelled, j.done);
      assert Set(j, w, worker) == Set(j, w, worker).(err := j.err, cancelled := j.cancelled, done := j.done);
  }

  /** The events that only move a worker. */
  ghost predicate MovesWorker(e: RangedDownload.Event) {
    e.MainJoins? || e.Leave? || e.PartDone? || e.Retry? || e.GiveUp?
  }

  ghost function WorkerMoved(files: Files, d: Download, e: RangedDownload.Event): Download
    requires MovesWorker(e) && Enabled(files, d, e)
  {
    var j := d.job.value;
    match e
    case MainJoins => d.(job := Some(Set(j, 0, Free)))
    case Leave(w) => d.(job := Some(Set(j, w, Exited)))
    case PartDone(w) => d.(job := Some(Set(j, w, Free).(done := j.done + {j.workers[w].index})))
    case Retry(w) => d.(job := Some(Set(j, w, Fetching(j.workers[w].index, None))))
    case GiveUp(w) => d.(job := Some(Failing(j, w)))
  }

  lemma WorkerMovedKeepsInv(files: Files, v: Bytes, d: Download, e: RangedDownload.Event)
    requires Inv(files, v, d) && MovesWorker(e) && Enabled(files, d, e)
    ensures Inv(files, v, WorkerMoved(files, d, e))
  {
    var j := d.job.value;
    match e
    case MainJoins => WorkerKeepsInv(files, v, d, j, 0, Free, j.err, j.cancelled, j.done);
    case Leave(w) => WorkerKeepsInv(files, v, d, j, w, Exited, j.err, j.cancelled, j.done);
    case PartDone(w) => WorkerKeepsInv(files, v, d, j, w, Free, j.err, j.cancelled, j.done + {j.workers[w].index});
    case Retry(w) => WorkerKeepsInv(files, v, d, j, w, Fetching(j.workers[w].index, None), j.err, j.cancelled, j.done);
    case GiveUp(w) => WorkerKeepsInv(files, v, d, j, w, Exited, true, true, j.done);
  }

  // The steps of the job as a whole.

  /** The workers started on free transfer slots, numbered from 1. */
  ghost function Extras(n: nat): (workers: map<nat, Worker>)
    ensures forall w <- workers :: workers[w] == Free && 1 <= w <= n
    ensures forall w :: 1 <= w <= n ==> w in workers
  {
    if n == 0 then map[] else Extras(n - 1)[n := Free]
  }

  ghost function Announced(d: Download, connections: nat, extra: nat): Job
    requires 0 <= d.plan.end < d.plan.total && connections > 0
  {
    Job(Cut(d.plan.end, d.plan.total, connections), 0, Extras(extra), false, false, {})
  }

  lemma AnnounceKeepsInv(files: Files, v: Bytes, d: Download, connections: nat, extra: nat)
    requires Inv(files, v, d) && Enabled(files, d, Announce(connections, extra))
    ensures Inv(files, v, d.(job := Some(Announced(d, connections, extra))))
  {
    var j := Announced(d, connections, extra);
    var d' := d.(job := Some(j));
    forall id: nat ensures RangeOk(d'.slot.b, j, id) {
      assert id in d.slot.b.regions.Keys <==> id == 0;
    }
    forall w: nat ensures WorkerOk(files, d', j, w) {
    }
    forall i: nat ensures Accounted(d'.slot.b, j, i) {
    }
    assert JobOk(files, d', j);
  }

  lemma CancelKeepsInv(files: Files, v: Bytes, d: Download)
    requires Inv(files, v, d) && d.job.Some?
    ensures Inv(files, v, d.(job := Some(d.job.value.(cancelled := true))))
  {
    var j := d.job.value;
    var j' := j.(cancelled := true);
    var d' := d.(job := Some(j'));
    forall id: nat ensures RangeOk(d.slot.b, j', id) {
      assert RangeOk(d.slot.b, j, id);
    }
    forall w: nat ensures WorkerOk(files, d', j', w) {
      assert WorkerOk(files, d, j, w);
    }
    forall w: nat, u: nat ensures Distinct(j', w, u) {
      assert Distinct(j, w, u);
    }
    forall i: nat ensures Accounted(d.slot.b, j', i) {
      assert Accounted(d.slot.b, j, i);
    }
  }

  lemma BodyEndKeepsInv(files: Files, v: Bytes, d: Download)
    requires Inv(files, v, d) && Enabled(files, d, BodyEnd)
    ensures Inv(files, v, d.(firstDone := true))
  {
    if d.job.Some? {
      JobIgnoresItself(files, d, d.(firstDone := true), d.job.value);
    }
  }

  ghost function Apply(files: Files, v: Bytes, d: Download, e: RangedDownload.Event): (d': Download)
    requires Inv(files, v, d) && Enabled(files, d, e)
    ensures Inv(files, v, d')
  {
    match e
    case Body(n, spill, write, garbage) =>
      BodyBelongs(files, v, d, n, spill, write, garbage);
      MoveKeepsInv(files, v, d, BodyWrite(d, n, spill, write, garbage));
      Moved(d, BodyWrite(d, n, spill, write, garbage))
    case BodyEnd =>
      BodyEndKeepsInv(files, v, d);
      d.(firstDone := true)
    case Announce(connections, extra) =>
      AnnounceKeepsInv(files, v, d, connections, extra);
      d.(job := Some(Announced(d, connections, extra)))
    case Claim(w) =>
      ClaimKeepsInv(files, v, d, w);
      Claimed(d, w)
    case Respond(w, r) =>
      RespondKeepsInv(files, v, d, w, r);
      Responded(d, w, r)
    case Push(w, n) =>
      PartBelongs(files, v, d, w, n);
      MoveKeepsInv(files, v, d, PartWrite(d, w, n));
      Moved(d, PartWrite(d, w, n))
    case Cancel =>
      CancelKeepsInv(files, v, d);
      d.(job := Some(d.job.value.(cancelled := true)))
    case Local(x) =>
      MoveKeepsInv(files, v, d, x);
      Moved(d, x)
    case _ =>
      WorkerMovedKeepsInv(files, v, d, e);
      WorkerMoved(files, d, e)
  }
}
