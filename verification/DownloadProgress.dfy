/**
 Ranged downloads can succeed: from any plan there is a run in which the servers
 answer in full and one worker fetches every part.
 */
module DownloadProgress {
  import opened Common
  import opened Ranges
  import opened Spool
  import opened SpoolRuns
  import opened RangedDownload
  import opened DownloadRuns
  import opened DownloadSafety

  // ----- Reaching a state -------------------------------------------------------------

  type Next = (Download, RangedDownload.Event) -> Option<Download>

  /** The download's steps. */
  ghost function Steps(files: Files, v: Bytes): Next {
    (d, e) => if Inv(files, v, d) && RangedDownload.Enabled(files, d, e) then Some(Apply(files, v, d, e)) else None
  }

  /** `next` takes every step the download can take. */
  ghost predicate Takes(next: Next, files: Files, v: Bytes) {
    forall d: Download, e: RangedDownload.Event {:trigger RangedDownload.Enabled(files, d, e)} ::
      Inv(files, v, d) && RangedDownload.Enabled(files, d, e) ==> next(d, e) == Some(Apply(files, v, d, e))
  }

  ghost predicate Leads(next: Next, d: Download, run: seq<RangedDownload.Event>, u: Download)
    decreases |run|
  {
    if run == [] then u == d else next(d, run[0]).Some? && Leads(next, next(d, run[0]).value, run[1..], u)
  }

  ghost predicate Reaches(next: Next, d: Download, u: Download) {
    exists run :: Leads(next, d, run, u)
  }

  lemma {:induction false} Joined(next: Next, d: Download, run: seq<RangedDownload.Event>, u: Download, rest: seq<RangedDownload.Event>, w: Download)
    requires Leads(next, d, run, u) && Leads(next, u, rest, w)
    ensures Leads(next, d, run + rest, w)
    decreases |run|
  {
    if run == [] {
      assert run + rest == rest;
    } else {
      Joined(next, next(d, run[0]).value, run[1..], u, rest, w);
      assert (run + rest)[1..] == run[1..] + rest;
    }
  }

  lemma ReachesOn(next: Next, d: Download, u: Download, w: Download)
    requires Reaches(next, d, u) && Reaches(next, u, w)
    ensures Reaches(next, d, w)
  {
    var run :| Leads(next, d, run, u);
    var rest :| Leads(next, u, rest, w);
    Joined(next, d, run, u, rest, w);
  }

  lemma ReachesItself(next: Next, d: Download)
    ensures Reaches(next, d, d)
  {
    assert Leads(next, d, [], d);
  }

  lemma OneStep(next: Next, d: Download, e: RangedDownload.Event, u: Download)
    requires next(d, e) == Some(u)
    ensures Reaches(next, d, u)
  {
    var run := [e];
    assert Leads(next, u, run[1..], u);
    assert Leads(next, d, run, u);
  }

  lemma StepReaches(next: Next, files: Files, v: Bytes, d: Download, e: RangedDownload.Event, u: Download)
    requires Takes(next, files, v)
    requires Inv(files, v, d) && RangedDownload.Enabled(files, d, e) && u == Apply(files, v, d, e)
    ensures Reaches(next, d, u) && Inv(files, v, u)
  {
    OneStep(next, d, e, u);
  }

  /** Steps that lead somewhere are a run. */
  lemma {:induction false} StepsAreRun(files: Files, v: Bytes, d: Download, run: seq<RangedDownload.Event>, u: Download)
    requires Inv(files, v, d) && Leads(Steps(files, v), d, run, u)
    ensures Possible(files, v, d, run) && DownloadSafety.After(files, v, d, run) == u
    decreases |run|
  {
    if run != [] {
      StepsAreRun(files, v, Apply(files, v, d, run[0]), run[1..], u);
    }
  }

  // ----- One write -------------------------------------------------------------------------

  /** `u` differs from `d` in its slot and books only, and its buffer is as healthy. */
  ghost predicate SameJob(d: Download, u: Download) {
    && u.plan == d.plan && u.firstDone == d.firstDone && u.job == d.job
    && u.slot.b.size == d.slot.b.size && u.slot.b.err == d.slot.b.err == None
  }

  /** `u` is `d` with `n` more bytes of the write `f` of range `id` copied. */
  ghost predicate CopiedMore(d: Download, u: Download, id: nat, f: Flight, n: nat) {
    SameJob(d, u) && u.slot.b.regions == d.slot.b.regions && u.slot.flights == d.slot.flights[id := f.(copied := f.copied + n)]
  }

  lemma CopiedOn(d: Download, c: Download, u: Download, id: nat, f: Flight, n: nat)
    requires CopiedMore(d, c, id, f, 1) && CopiedMore(c, u, id, f.(copied := f.copied + 1), n)
    ensures CopiedMore(d, u, id, f, n + 1)
  {
  }

  lemma CopiedNothing(d: Download, id: nat, f: Flight)
    requires id in d.slot.flights && d.slot.flights[id] == f && d.slot.b.err == None
    ensures CopiedMore(d, d, id, f, 0)
  {
    assert d.slot.flights[id := f] == d.slot.flights;
  }

  lemma CopyMoves(d: Download, id: nat, f: Flight)
    requires SlotOk(d.slot) && d.slot.b.err == None
    requires id in d.slot.flights && d.slot.flights[id] == f && f.copied < |f.bytes|
    ensures CopiedMore(d, Moved(d, CopyByte(0, id)), id, f, 1)
  {
  }

  /** `inv` says that the invariant holds. */
  ghost predicate Says(inv: Download -> bool, files: Files, v: Bytes) {
    forall d: Download {:trigger Inv(files, v, d)} :: inv(d) <==> Inv(files, v, d)
  }

  lemma CopyOne(next: Next, inv: Download -> bool, files: Files, v: Bytes, d: Download, id: nat, f: Flight) returns (u: Download)
    requires Takes(next, files, v) && Says(inv, files, v) && inv(d) && d.slot.b.err == None
    requires id in d.slot.flights && d.slot.flights[id] == f && f.copied < |f.bytes|
    ensures Reaches(next, d, u) && inv(u) && CopiedMore(d, u, id, f, 1)
  {
    assert Inv(files, v, d);
    var e := CopyByte(0, id);
    CopyMoves(d, id, f);
    MoveKeepsInv(files, v, d, e);
    u := Moved(d, e);
    StepReaches(next, files, v, d, Local(e), u);
  }

  lemma {:induction false} CopyAll(next: Next, inv: Download -> bool, files: Files, v: Bytes, d: Download, id: nat, f: Flight, n: nat)
    returns (u: Download)
    requires Takes(next, files, v) && Says(inv, files, v) && inv(d) && d.slot.b.err == None
    requires id in d.slot.flights && d.slot.flights[id] == f && f.copied + n == |f.bytes|
    ensures Reaches(next, d, u) && inv(u) && CopiedMore(d, u, id, f, n)
    decreases n
  {
    if n == 0 {
      u := d;
      ReachesItself(next, d);
      CopiedNothing(d, id, f);
    } else {
      var c := CopyOne(next, inv, files, v, d, id, f);
      u := CopyAll(next, inv, files, v, c, id, f.(copied := f.copied + 1), n - 1);
      ReachesOn(next, d, c, u);
      CopiedOn(d, c, u, id, f, n - 1);
    }
  }

  /** `u` is `d` with the write `f` of range `id` finished. */
  ghost predicate Finishes(d: Download, u: Download, id: nat, f: Flight)
    requires id in d.slot.b.regions
  {
    var r := d.slot.b.regions[id];
    SameJob(d, u) && u.slot.flights == d.slot.flights - {id}
    && u.slot.b.regions == d.slot.b.regions[id := r.(written := r.written + |f.bytes|)]
  }

  lemma EndedFinishes(b: Buffer, k: Books, id: nat, n: nat, ram: bool)
    requires id in b.regions && (ram ==> b.pinned > 0) && b.err == None && forall i :: 0 <= i < |b.order| ==> b.order[i] in b.regions
    ensures var c := Ended(b, k, id, n, ram).0;
            && c.size == b.size && c.err == None
            && c.regions == b.regions[id := b.regions[id].(written := b.regions[id].written + n)]
  {
  }

  lemma EndFinishes(d: Download, id: nat, f: Flight)
    requires SlotOk(d.slot) && d.slot.b.err == None && id in d.slot.b.regions
    requires id in d.slot.flights && d.slot.flights[id] == f && f.copied == |f.bytes|
    ensures Finishes(d, Moved(d, SpoolRuns.EndWrite(0, id)), id, f)
  {
    LeavingDropsPin(d.slot, id);
    assert f.ram ==> id in RamFlights(d.slot);
    EndedFinishes(d.slot.b, d.books, id, |f.bytes|, f.ram);
  }

  lemma EndsCopy(next: Next, files: Files, v: Bytes, d: Download, id: nat, f: Flight) returns (u: Download)
    requires Takes(next, files, v) && Inv(files, v, d) && d.slot.b.err == None && id in d.slot.b.regions
    requires id in d.slot.flights && d.slot.flights[id] == f && f.copied == |f.bytes|
    ensures Reaches(next, d, u) && Inv(files, v, u) && Finishes(d, u, id, f)
  {
    var e := SpoolRuns.EndWrite(0, id);
    EndFinishes(d, id, f);
    MoveKeepsInv(files, v, d, e);
    u := Moved(d, e);
    StepReaches(next, files, v, d, Local(e), u);
  }

  /** `u` is `d` after `n` more bytes of range `id` are written. */
  ghost predicate Wrote(d: Download, u: Download, id: nat, n: nat)
    requires id in d.slot.b.regions
  {
    var r := d.slot.b.regions[id];
    SameJob(d, u) && u.slot.flights == map[] && u.slot.b.regions == d.slot.b.regions[id := r.(written := r.written + n)]
  }

  /** `c` is `d` after a write of `p` to range `id` began. */
  ghost predicate Began(d: Download, c: Download, id: nat, p: Bytes) {
    && SameJob(d, c) && id in d.slot.b.regions && c.slot.b.regions == d.slot.b.regions
    && c.slot.flights.Keys == {id} && c.slot.flights[id].bytes == p && c.slot.flights[id].copied == 0
  }

  lemma WholeWrite(d: Download, c: Download, w: Download, u: Download, id: nat, p: Bytes)
    requires Began(d, c, id, p) && CopiedMore(c, w, id, c.slot.flights[id], |p|)
    requires Finishes(w, u, id, c.slot.flights[id].(copied := |p|))
    ensures Wrote(d, u, id, |p|)
  {
    assert u.slot.flights.Keys == {};
  }

  /** A write once begun can end. */
  lemma BegunEnds(next: Next, files: Files, v: Bytes, d: Download, c: Download, id: nat, p: Bytes) returns (u: Download)
    requires Takes(next, files, v) && Reaches(next, d, c) && Inv(files, v, c) && Began(d, c, id, p)
    ensures Reaches(next, d, u) && Inv(files, v, u) && Wrote(d, u, id, |p|)
  {
    var f := c.slot.flights[id];
    var w := CopyAll(next, d => Inv(files, v, d), files, v, c, id, f, |p|);
    u := EndsCopy(next, files, v, w, id, f.(copied := |p|));
    WholeWrite(d, c, w, u, id, p);
    ReachesOn(next, d, c, w);
    ReachesOn(next, d, w, u);
  }

  /** What beginning a write in a sound buffer of known size does. */
  lemma Begins(d: Download, id: nat, p: Bytes)
    requires SlotOk(d.slot) && d.slot.flights == map[] && d.slot.b.err == None && d.slot.b.size >= 0 && id in d.slot.b.regions
    requires SlotEnabled(d.slot, BeginWrite(0, id, p))
    requires var r := d.slot.b.regions[id]; r.end >= 0 && r.Next() + |p| <= r.end && r.Next() + |p| <= d.slot.b.size
    ensures Began(d, Moved(d, BeginWrite(0, id, p)), id, p)
  {
  }

  // ----- The first response ------------------------------------------------------------------

  /** No call is inside the buffer, and it is healthy. */
  ghost predicate Calm(d: Download) {
    d.slot.flights == map[] && d.slot.b.err == None && d.slot.b.size >= 0
  }

  /** The first response carries in full what it states. */
  ghost predicate BodyIsWhole(p: Plan) {
    0 < p.end == |p.r.body| <= p.total && p.r.clean
  }

  /** And parts remain to be fetched. */
  ghost predicate FirstIsWhole(p: Plan) {
    p.ranged && BodyIsWhole(p) && p.end < p.total <= MaxInt64
  }

  lemma BodyArrives(next: Next, files: Files, v: Bytes, d: Download) returns (u: Download)
    requires Takes(next, files, v) && Inv(files, v, d) && Calm(d) && !d.firstDone && BodyIsWhole(d.plan)
    requires 0 in d.slot.b.regions && d.slot.b.regions[0] == Region(0, d.plan.end, 0)
    ensures Reaches(next, d, u) && Inv(files, v, u) && Wrote(d, u, 0, |d.plan.r.body|)
  {
    var n := |d.plan.r.body|;
    var e := Body(n, false, false, []);
    var write := BodyWrite(d, n, false, false, []);
    assert d.plan.r.body[0..n] == d.plan.r.body;
    BodyBelongs(files, v, d, n, false, false, []);
    MoveKeepsInv(files, v, d, write);
    Begins(d, 0, d.plan.r.body);
    StepReaches(next, files, v, d, e, Moved(d, write));
    u := BegunEnds(next, files, v, d, Moved(d, write), 0, d.plan.r.body);
  }

  lemma FirstArrives(next: Next, files: Files, v: Bytes, d: Download) returns (u: Download)
    requires Takes(next, files, v) && Inv(files, v, d) && Calm(d) && !d.firstDone && BodyIsWhole(d.plan) && d.job == None
    requires 0 in d.slot.b.regions && d.slot.b.regions[0] == Region(0, d.plan.end, 0)
    ensures Reaches(next, d, u) && Inv(files, v, u)
    ensures Calm(u) && u.firstDone && u.plan == d.plan && u.job == None
  {
    var c := BodyArrives(next, files, v, d);
    u := c.(firstDone := true);
    StepReaches(next, files, v, c, BodyEnd, u);
    ReachesOn(next, d, c, u);
  }

  // ----- The parts -------------------------------------------------------------------------------

  /** The first response is in, and the first connection is free to fetch parts. */
  ghost predicate Working(d: Download, j: Job) {
    && Calm(d) && d.firstDone && FirstIsWhole(d.plan) && d.job == Some(j)
    && j.workers == map[0 := Free] && !j.err && !j.cancelled
  }

  lemma PartsBegin(next: Next, files: Files, v: Bytes, d: Download) returns (u: Download, j: Job)
    requires Takes(next, files, v) && Inv(files, v, d) && Calm(d) && d.firstDone && FirstIsWhole(d.plan) && d.job == None
    ensures Reaches(next, d, u) && Inv(files, v, u) && Working(u, j) && j.next == 0
  {
    var announced := Announced(d, 1, 0);
    var c := d.(job := Some(announced));
    StepReaches(next, files, v, d, Announce(1, 0), c);
    j := Set(announced, 0, Free);
    u := c.(job := Some(j));
    StepReaches(next, files, v, c, MainJoins, u);
    ReachesOn(next, d, c, u);
  }

  /** The pinned file's bytes from `from` to `to`, as its server sends them. */
  function Honestly(p: Plan, v: Bytes, from: nat, to: nat): Response
    requires from < to <= |v|
  {
    Response(206, p.r.url, p.r.etag, Formatted(from, to - 1, |v|), -1, v[from..to], true)
  }

  lemma HonestlyIsAccepted(files: Files, p: Plan, v: Bytes, from: nat, to: nat)
    requires Aims(files, p, v) && FirstIsWhole(p) && from < to <= |v|
    ensures Honest(files, Honestly(p, v, from, to)) && Judge(p, from, to, Honestly(p, v, from, to)) == Accepted
  {
    var r := Honestly(p, v, from, to);
    ContentRangeReadsBack(from, to - 1, |v|);
    assert Carries(r, v);
  }

  /** Worker 0 fetches part `i`, whose range is still empty. */
  ghost predicate AtPart(d: Download, j: Job, i: nat) {
    && Calm(d) && d.firstDone && FirstIsWhole(d.plan) && d.job == Some(j)
    && !j.err && !j.cancelled
    && Id(i) in d.slot.b.regions && j.parts.Start(i) < j.parts.End(i) <= d.plan.total
    && d.slot.b.regions[Id(i)].start == j.parts.Start(i) && d.slot.b.regions[Id(i)].end == j.parts.End(i)
  }

  lemma ClaimReaches(next: Next, files: Files, v: Bytes, d: Download, j: Job) returns (u: Download)
    requires Takes(next, files, v) && Inv(files, v, d) && Working(d, j) && j.next < j.parts.count
    ensures Reaches(next, d, u) && Inv(files, v, u) && u.plan == d.plan
    ensures AtPart(u, Handing(j, 0), j.next) && u.slot.b.regions[Id(j.next)].written == 0
  {
    ClaimKeepsInv(files, v, d, 0);
    u := Claimed(d, 0);
    StepReaches(next, files, v, d, Claim(0), u);
    var c :| c > 0 && j.parts == Cut(d.plan.end, d.plan.total, c);
    PartsTile(d.plan.end, d.plan.total, c);
  }

  lemma AcceptedIsCopied(d: Download, j: Job, i: nat, r: Response)
    requires AtPart(d, j, i) && d.slot.flights == map[] && d.slot.b.regions[Id(i)].written == 0
    requires j.workers == map[0 := Fetching(i, None)] && Judge(d.plan, j.parts.Start(i), j.parts.End(i), r) == Accepted
    ensures Idle(d, 0) && Responded(d, 0, r) == d.(job := Some(Set(j, 0, Fetching(i, Some(Stream(r, j.parts.Start(i)))))))
  {
  }

  lemma RespondReaches(next: Next, files: Files, v: Bytes, d: Download, j: Job, i: nat) returns (u: Download, j': Job)
    requires Takes(next, files, v) && Inv(files, v, d) && AtPart(d, j, i) && d.slot.b.regions[Id(i)].written == 0
    requires j.workers == map[0 := Fetching(i, None)]
    ensures Reaches(next, d, u) && Inv(files, v, u) && u.plan == d.plan && u.slot == d.slot
    ensures AtPart(u, j', i) && j'.parts == j.parts && j'.next == j.next
    ensures j'.workers == map[0 := Fetching(i, Some(Stream(Honestly(d.plan, v, j.parts.Start(i), j.parts.End(i)), j.parts.Start(i))))]
  {
    var r := Honestly(d.plan, v, j.parts.Start(i), j.parts.End(i));
    HonestlyIsAccepted(files, d.plan, v, j.parts.Start(i), j.parts.End(i));
    j' := Set(j, 0, Fetching(i, Some(Stream(r, j.parts.Start(i)))));
    u := d.(job := Some(j'));
    AcceptedIsCopied(d, j, i, r);
    RespondKeepsInv(files, v, d, 0, r);
    StepReaches(next, files, v, d, Respond(0, r), u);
  }

  /** Pushing the whole response is the write of its bytes. */
  lemma PushWrites(files: Files, d: Download, j: Job, i: nat, st: Stream, n: nat)
    requires AtPart(d, j, i) && d.slot.b.regions[Id(i)].written == 0
    requires j.workers == map[0 := Fetching(i, Some(st))] && st.base == j.parts.Start(i) && n == |st.r.body| > 0
    ensures RangedDownload.Enabled(files, d, Push(0, n)) && PartWrite(d, 0, n) == BeginWrite(0, Id(i), st.r.body)
  {
    assert st.r.body[0..n] == st.r.body;
  }

  lemma PushBegins(next: Next, files: Files, v: Bytes, d: Download, j: Job, i: nat, p: Bytes, st: Stream) returns (c: Download)
    requires Takes(next, files, v) && Inv(files, v, d) && AtPart(d, j, i) && d.slot.b.regions[Id(i)].written == 0
    requires j.workers == map[0 := Fetching(i, Some(st))] && st.base == j.parts.Start(i)
    requires st.r.body == p && |p| == j.parts.End(i) - j.parts.Start(i) && d.slot.b.size == d.plan.total
    ensures Reaches(next, d, c) && Inv(files, v, c) && Began(d, c, Id(i), p)
  {
    PushWrites(files, d, j, i, st, |p|);
    PartBelongs(files, v, d, 0, |p|);
    MoveKeepsInv(files, v, d, BeginWrite(0, Id(i), p));
    Begins(d, Id(i), p);
    c := Moved(d, BeginWrite(0, Id(i), p));
    StepReaches(next, files, v, d, Push(0, |p|), c);
  }

  lemma PushReaches(next: Next, files: Files, v: Bytes, d: Download, j: Job, i: nat, p: Bytes) returns (u: Download)
    requires Takes(next, files, v) && Inv(files, v, d) && AtPart(d, j, i) && d.slot.b.regions[Id(i)].written == 0
    requires p == v[j.parts.Start(i)..j.parts.End(i)]
    requires j.workers == map[0 := Fetching(i, Some(Stream(Honestly(d.plan, v, j.parts.Start(i), j.parts.End(i)), j.parts.Start(i))))]
    ensures Reaches(next, d, u) && Inv(files, v, u) && Wrote(d, u, Id(i), |p|)
  {
    var c := PushBegins(next, files, v, d, j, i, p, Stream(Honestly(d.plan, v, j.parts.Start(i), j.parts.End(i)), j.parts.Start(i)));
    u := BegunEnds(next, files, v, d, c, Id(i), p);
  }

  lemma PartEnds(next: Next, files: Files, v: Bytes, d: Download, j: Job, i: nat) returns (u: Download, j': Job)
    requires Takes(next, files, v) && Inv(files, v, d) && AtPart(d, j, i) && d.slot.b.regions[Id(i)].Next() == j.parts.End(i)
    requires j.workers == map[0 := Fetching(i, Some(Stream(Honestly(d.plan, v, j.parts.Start(i), j.parts.End(i)), j.parts.Start(i))))]
    ensures Reaches(next, d, u) && Inv(files, v, u) && u.plan == d.plan
    ensures Working(u, j') && j'.parts == j.parts && j'.next == j.next
  {
    j' := Set(j, 0, Free).(done := j.done + {i});
    u := d.(job := Some(j'));
    WorkerMovedKeepsInv(files, v, d, PartDone(0));
    StepReaches(next, files, v, d, PartDone(0), u);
  }

  /** The response to worker 0's request for part `i`, in full. */
  ghost function PartStream(d: Download, v: Bytes, j: Job, i: nat): Stream
    requires j.parts.Start(i) < j.parts.End(i) <= |v|
  {
    Stream(Honestly(d.plan, v, j.parts.Start(i), j.parts.End(i)), j.parts.Start(i))
  }

  lemma PartIsAnswered(next: Next, files: Files, v: Bytes, d: Download, j: Job, i: nat) returns (u: Download, j': Job)
    requires Takes(next, files, v) && Inv(files, v, d) && Working(d, j) && j.next == i < j.parts.count
    ensures Reaches(next, d, u) && Inv(files, v, u) && u.plan == d.plan && |v| == d.plan.total
    ensures AtPart(u, j', i) && u.slot.b.regions[Id(i)].written == 0 && j'.parts == j.parts && j'.next == i + 1
    ensures j'.workers == map[0 := Fetching(i, Some(PartStream(u, v, j', i)))]
  {
    var a := ClaimReaches(next, files, v, d, j);
    u, j' := RespondReaches(next, files, v, a, Handing(j, 0), i);
    ReachesOn(next, d, a, u);
  }

  lemma PartIsTaken(next: Next, files: Files, v: Bytes, d: Download, j: Job, i: nat) returns (u: Download, j': Job)
    requires Takes(next, files, v) && Inv(files, v, d) && |v| == d.plan.total
    requires AtPart(d, j, i) && d.slot.b.regions[Id(i)].written == 0
    requires j.workers == map[0 := Fetching(i, Some(PartStream(d, v, j, i)))]
    ensures Reaches(next, d, u) && Inv(files, v, u) && u.plan == d.plan
    ensures Working(u, j') && j'.parts == j.parts && j'.next == j.next
  {
    var c := PushReaches(next, files, v, d, j, i, v[j.parts.Start(i)..j.parts.End(i)]);
    u, j' := PartEnds(next, files, v, c, j, i);
    ReachesOn(next, d, c, u);
  }

  lemma PartArrives(next: Next, files: Files, v: Bytes, d: Download, j: Job) returns (u: Download, j': Job)
    requires Takes(next, files, v) && Inv(files, v, d) && Working(d, j) && j.next < j.parts.count
    ensures Reaches(next, d, u) && Inv(files, v, u) && u.plan == d.plan
    ensures Working(u, j') && j'.parts == j.parts && j'.next == j.next + 1
  {
    var b, k := PartIsAnswered(next, files, v, d, j, j.next);
    u, j' := PartIsTaken(next, files, v, b, k, j.next);
    ReachesOn(next, d, b, u);
  }

  lemma {:induction false} PartsArrive(next: Next, files: Files, v: Bytes, d: Download, j: Job) returns (u: Download, j': Job)
    requires Takes(next, files, v) && Inv(files, v, d) && Working(d, j) && j.next <= j.parts.count
    ensures Reaches(next, d, u) && Inv(files, v, u) && u.plan == d.plan
    ensures Working(u, j') && j'.next == j'.parts.count
    decreases j.parts.count - j.next
  {
    if j.next == j.parts.count {
      u, j' := d, j;
      ReachesItself(next, d);
    } else {
      var c, k := PartArrives(next, files, v, d, j);
      u, j' := PartsArrive(next, files, v, c, k);
      ReachesOn(next, d, c, u);
    }
  }

  /** With every part fetched, the worker finds no more and the download is done. */
  lemma WorkEnds(next: Next, files: Files, v: Bytes, d: Download, j: Job) returns (u: Download)
    requires Takes(next, files, v) && Inv(files, v, d) && Working(d, j) && j.next == j.parts.count
    ensures Reaches(next, d, u) && Succeeds(u)
  {
    u := d.(job := Some(Passing(j, 0)));
    ClaimKeepsInv(files, v, d, 0);
    StepReaches(next, files, v, d, Claim(0), u);
    FinishCompletes(files, v, u, Passing(j, 0));
  }

  lemma PartsSucceed(next: Next, files: Files, v: Bytes, d: Download) returns (u: Download)
    requires Takes(next, files, v) && Inv(files, v, d) && Calm(d) && d.firstDone && FirstIsWhole(d.plan) && d.job == None
    ensures Reaches(next, d, u) && Succeeds(u)
  {
    var b, j := PartsBegin(next, files, v, d);
    var c, l := PartsArrive(next, files, v, b, j);
    u := WorkEnds(next, files, v, c, l);
    ReachesOn(next, d, b, c);
    ReachesOn(next, d, c, u);
  }

  lemma StartedSucceeds(next: Next, files: Files, v: Bytes, d: Download) returns (u: Download)
    requires Takes(next, files, v) && Inv(files, v, d) && Calm(d) && !d.firstDone && FirstIsWhole(d.plan) && d.job == None
    requires 0 in d.slot.b.regions && d.slot.b.regions[0] == Region(0, d.plan.end, 0)
    ensures Reaches(next, d, u) && Succeeds(u)
  {
    var a := FirstArrives(next, files, v, d);
    u := PartsSucceed(next, files, v, a);
    ReachesOn(next, d, a, u);
  }

  /**
   For every file and every plan to fetch it in parts, there is a run that succeeds:
   the first response arrives in full, and one worker fetches all parts.
   */
  lemma DownloadsCanSucceed(files: Files, v: Bytes, p: Plan, k: Books, file: bool)
    requires Aims(files, p, v) && FirstIsWhole(p) && Created(k, p.total, file).0.Some?
    ensures var d := Started(p, Created(k, p.total, file).0.value, k);
            && Inv(files, v, d)
            && exists run :: Possible(files, v, d, run) && Succeeds(DownloadSafety.After(files, v, d, run))
  {
    var d := Started(p, Created(k, p.total, file).0.value, k);
    StartIsSound(files, v, p, k, file);
    var run, u := Succeeding(files, v, d);
    StepsAreRun(files, v, d, run, u);
  }

  lemma Succeeding(files: Files, v: Bytes, d: Download) returns (run: seq<RangedDownload.Event>, u: Download)
    requires Inv(files, v, d) && Calm(d) && !d.firstDone && FirstIsWhole(d.plan) && d.job == None
    requires 0 in d.slot.b.regions && d.slot.b.regions[0] == Region(0, d.plan.end, 0)
    ensures Leads(Steps(files, v), d, run, u) && Succeeds(u)
  {
    var next := Steps(files, v);
    StepsTake(files, v);
    u := StartedSucceeds(next, files, v, d);
    run :| Leads(next, d, run, u);
  }

  // ----- Whole files ---------------------------------------------------------------------------

  /** A file that one response carries is complete with it. */
  lemma WholeBodyCompletes(files: Files, v: Bytes, d: Download)
    requires Inv(files, v, d) && d.firstDone && d.plan.total >= 0 && d.plan.end == d.plan.total && d.slot.b.err == None
    ensures Completed(d.slot.b).1 == None
  {
    var b := d.slot.b;
    ScanIsLongestPrefix(b.order, b.regions);
    assert Listed(b.order, b.regions, 0);
    assert b.ready < d.plan.total ==> Covered(b.order, b.regions, b.ready);
  }

  /** An append of the whole body can find room and be written. */
  lemma BodyIsAppended(d: Download, p: Bytes)
    requires SlotOk(d.slot) && d.slot.b.size < 0 && d.slot.b.err == None && d.slot.flights == map[]
    requires d.slot.b.regions == map[0 := Region(0, d.plan.end, 0)] && d.plan.end < 0 && p != []
    ensures SlotEnabled(d.slot, SpoolRuns.Append(0, 0, p, true, true, []))
    ensures var u := Moved(d, SpoolRuns.Append(0, 0, p, true, true, []));
            u.slot.flights == map[] && u.slot.b.err == None && u.slot.b.regions == map[0 := Region(0, d.plan.end, |p|)] && u.slot.b.size < 0
  {
    NoRoomExactlyWhen(d.slot.b, d.books, |p|, true);
  }

  /** Nothing of a growing file has arrived yet. */
  ghost predicate GrowingStart(d: Download) {
    && d.slot.flights == map[] && d.slot.b.err == None && !d.firstDone && d.job == None
    && d.plan.total < 0 && d.plan.end < 0 && d.plan.r.clean && |d.plan.r.body| > 0 && d.slot.b.size < 0
    && d.slot.b.regions == map[0 := Region(0, d.plan.end, 0)]
  }

  lemma BodyIsWritten(d: Download, n: nat)
    requires GrowingStart(d) && n == |d.plan.r.body|
    ensures BodyWrite(d, n, true, true, []) == SpoolRuns.Append(0, 0, d.plan.r.body, true, true, [])
  {
    assert d.plan.r.body[0..n] == d.plan.r.body;
  }

  lemma GrowingGrows(next: Next, files: Files, v: Bytes, d: Download, n: nat) returns (u: Download)
    requires Takes(next, files, v) && Inv(files, v, d) && GrowingStart(d) && n == |d.plan.r.body|
    ensures Reaches(next, d, u) && Inv(files, v, u) && u == d.(slot := u.slot, books := u.books)
    ensures u.slot.flights == map[] && u.slot.b.err == None && u.slot.b.regions == map[0 := Region(0, d.plan.end, n)] && u.slot.b.size < 0
  {
    BodyIsWritten(d, n);
    BodyIsAppended(d, d.plan.r.body);
    BodyBelongs(files, v, d, n, true, true, []);
    MoveKeepsInv(files, v, d, BodyWrite(d, n, true, true, []));
    u := Moved(d, BodyWrite(d, n, true, true, []));
    StepReaches(next, files, v, d, Body(n, true, true, []), u);
  }

  lemma GrowingEnds(next: Next, files: Files, v: Bytes, d: Download) returns (u: Download)
    requires Takes(next, files, v) && Inv(files, v, d) && !d.firstDone && d.plan.total < 0 && d.plan.end < 0 && d.plan.r.clean && !d.plan.ranged
    requires d.slot.flights == map[] && d.slot.b.err == None && d.slot.b.size < 0
    requires d.slot.b.regions == map[0 := Region(0, d.plan.end, |d.plan.r.body|)] && |d.plan.r.body| > 0
    ensures Reaches(next, d, u) && Succeeds(u)
  {
    u := d.(firstDone := true);
    StepReaches(next, files, v, d, BodyEnd, u);
    GrowingCompletes(u.slot.b);
  }

  lemma GrowingArrives(next: Next, files: Files, v: Bytes, d: Download) returns (u: Download)
    requires Takes(next, files, v) && Inv(files, v, d) && GrowingStart(d) && !d.plan.ranged
    ensures Reaches(next, d, u) && Succeeds(u)
  {
    var c := GrowingGrows(next, files, v, d, |d.plan.r.body|);
    u := GrowingEnds(next, files, v, c);
    ReachesOn(next, d, c, u);
  }

  lemma PlainSucceeds(next: Next, files: Files, v: Bytes, d: Download) returns (u: Download)
    requires Takes(next, files, v) && Inv(files, v, d) && d.slot.flights == map[] && d.slot.b.err == None && !d.firstDone
    requires !d.plan.ranged && d.plan.r.clean && |d.plan.r.body| > 0 && (d.plan.end >= 0 ==> |d.plan.r.body| == d.plan.end) && d.job == None
    requires d.slot.b.regions == map[0 := Region(0, d.plan.end, 0)]
    ensures Reaches(next, d, u) && Succeeds(u)
  {
    if d.plan.total < 0 {
      u := GrowingArrives(next, files, v, d);
    } else {
      u := FirstArrives(next, files, v, d);
      WholeBodyCompletes(files, v, u);
    }
  }

  /** For every file that the first response carries whole, its length known or not, there is a run that succeeds. */
  lemma PlainDownloadsCanSucceed(files: Files, v: Bytes, p: Plan, k: Books, file: bool)
    requires Aims(files, p, v) && !p.ranged && p.r.clean && |p.r.body| > 0 && (p.end >= 0 ==> |p.r.body| == p.end)
    requires Created(k, p.total, file).0.Some?
    ensures var d := Started(p, Created(k, p.total, file).0.value, k);
            && Inv(files, v, d)
            && exists run :: Possible(files, v, d, run) && Succeeds(DownloadSafety.After(files, v, d, run))
  {
    var d := Started(p, Created(k, p.total, file).0.value, k);
    StartIsSound(files, v, p, k, file);
    var next := Steps(files, v);
    StepsTake(files, v);
    var u := PlainSucceeds(next, files, v, d);
    var run :| Leads(next, d, run, u);
    StepsAreRun(files, v, d, run, u);
  }

  /** So a server that ignores ranges and answers with the whole file, not too large, is enough. */
  lemma WholeAnswersSuffice(files: Files, ranged: bool, first: Response, whole: Response, maximum: int, k: Books, file: bool)
    requires Honest(files, first) && Honest(files, whole) && first.status == 200 && Allowed(first.length, maximum)
    requires first.clean && |first.body| > 0 && (first.length >= 0 ==> |first.body| == first.length)
    requires Created(k, first.length, file).0.Some?
    ensures var c := Choose(ranged, first, whole, maximum);
            && c.Some?
            && exists v :: var d := Started(c.value, Created(k, c.value.total, file).0.value, k);
                 Inv(files, v, d) && exists run :: Possible(files, v, d, run) && Succeeds(DownloadSafety.After(files, v, d, run))
  {
    TakenExactlyWhen(ranged, first, whole, maximum);
    var p := Choose(ranged, first, whole, maximum).value;
    var v := ChosenAims(files, ranged, first, whole, maximum);
    PlainDownloadsCanSucceed(files, v, p, k, file);
  }

  lemma StepsTake(files: Files, v: Bytes)
    ensures Takes(Steps(files, v), files, v)
  {
  }
}
