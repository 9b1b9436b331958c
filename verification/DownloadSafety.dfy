/**
 What a ranged download guarantees over every run: one version of the file, whole,
 each part handed out once, and success whenever every worker finished.
 */
module DownloadSafety {
  import opened Common
  import opened Ranges
  import opened Spool
  import opened SpoolRuns
  import opened SpoolContents
  import opened RangedDownload
  import opened DownloadRuns

  // ----- Runs -------------------------------------------------------------------------

  /** The buffer is made, its first writer opened, nothing received. */
  ghost function Started(p: Plan, b: Buffer, k: Books): Download
    requires b.order == []
  {
    Download(Slot(Open(b, 0, 0, p.end), map[], 0), k, p, false, None)
  }

  lemma StartIsSound(files: Files, v: Bytes, p: Plan, k: Books, file: bool)
    requires Aims(files, p, v) && Created(k, p.total, file).0.Some?
    ensures Inv(files, v, Started(p, Created(k, p.total, file).0.value, k))
  {
    var b := Created(k, p.total, file).0.value;
    var s := Slot(b, map[], 0);
    assert RamFlights(s) == {};
    assert SlotOk(s);
    OpenIsOk(s, k, 0, 0, p.end);
    OpenCoversNothing(b, 0, 0, p.end, v);
    var d := Started(p, b, k);
    assert d.slot.b.regions == map[0 := Region(0, p.end, 0)];
  }

  ghost predicate Possible(files: Files, v: Bytes, d: Download, run: seq<RangedDownload.Event>)
    requires Inv(files, v, d)
    decreases |run|
  {
    run != [] ==> RangedDownload.Enabled(files, d, run[0]) && Possible(files, v, Apply(files, v, d, run[0]), run[1..])
  }

  ghost function After(files: Files, v: Bytes, d: Download, run: seq<RangedDownload.Event>): (d': Download)
    requires Inv(files, v, d) && Possible(files, v, d, run)
    ensures Inv(files, v, d')
    decreases |run|
  {
    if run == [] then d else After(files, v, Apply(files, v, d, run[0]), run[1..])
  }

  // ----- One version of the file ----------------------------------------------------------

  /** `downloadOnce` reaches its end: the first response is in, the parts finished, `Complete` succeeds. */
  ghost predicate Succeeds(d: Download) {
    && d.firstDone && Completed(d.slot.b).1 == None
    && (d.plan.ranged && d.plan.total > d.plan.end ==> d.job.Some? && Finished(d.job.value))
  }

  /** `finish` returns nil: every worker has left and nothing failed. */
  ghost predicate Finished(j: Job) {
    0 in j.workers && (forall w <- j.workers :: j.workers[w].Exited?) && !j.err && !j.cancelled
  }

  lemma CompletedSize(files: Files, v: Bytes, d: Download)
    requires Inv(files, v, d) && d.firstDone && Completed(d.slot.b).1 == None
    ensures Completed(d.slot.b).0.size == |v|
  {
    if d.plan.total < 0 {
      UnboundedIsReady(d.slot.b, 0);
    }
  }

  /**
   A download that succeeds holds every byte of one version of the file, whatever
   the servers answered and however the parts were retried; when parts were
   fetched it is the version the pinned ETag names.
   */
  lemma OneRepresentation(files: Files, v: Bytes, d: Download, run: seq<RangedDownload.Event>)
    requires Inv(files, v, d) && Possible(files, v, d, run)
    requires Succeeds(After(files, v, d, run))
    ensures var e := After(files, v, d, run);
            && Completed(e.slot.b).0.size == |v|
            && |v| <= |e.slot.b.data| && e.slot.b.data[..|v|] == v
            && (e.plan.ranged && e.plan.total > e.plan.end ==> v == files(e.plan.r.url, e.plan.r.etag))
  {
    var e := After(files, v, d, run);
    CompletedSize(files, v, e);
    CompleteIsWholeFile(e.slot, v);
  }

  /** The same from the first request on, for any answers of honest servers. */
  lemma DownloadIsOneVersion(files: Files, ranged: bool, first: Response, whole: Response, maximum: int, k: Books, file: bool)
    requires Honest(files, first) && Honest(files, whole)
    requires var p := Choose(ranged, first, whole, maximum); p.Some? && Created(k, p.value.total, file).0.Some?
    ensures var p := Choose(ranged, first, whole, maximum).value;
            exists v :: var d := Started(p, Created(k, p.total, file).0.value, k);
              Inv(files, v, d) && forall run :: Possible(files, v, d, run) && Succeeds(After(files, v, d, run)) ==>
                var b := After(files, v, d, run).slot.b; Completed(b).0.size == |v| <= |b.data| && b.data[..|v|] == v
  {
    var p := Choose(ranged, first, whole, maximum).value;
    var v := ChosenAims(files, ranged, first, whole, maximum);
    var d := Started(p, Created(k, p.total, file).0.value, k);
    StartIsSound(files, v, p, k, file);
    forall run | Possible(files, v, d, run) && Succeeds(After(files, v, d, run))
      ensures var b := After(files, v, d, run).slot.b; Completed(b).0.size == |v| <= |b.data| && b.data[..|v|] == v
    {
      OneRepresentation(files, v, d, run);
    }
  }

  // ----- Completeness -----------------------------------------------------------------------

  /** When `finish` returns nil every part was handed out, and its writer is full. */
  lemma FinishedPartsAreFull(files: Files, v: Bytes, d: Download, j: Job, i: nat)
    requires Inv(files, v, d) && d.job == Some(j) && Finished(j) && i < j.parts.count
    ensures Id(i) in d.slot.b.regions
    ensures d.slot.b.regions[Id(i)].start == j.parts.Start(i) && d.slot.b.regions[Id(i)].Next() == j.parts.End(i)
  {
    assert j.workers[0].Exited?;
    assert Accounted(d.slot.b, j, i) && RangeOk(d.slot.b, j, Id(i));
  }

  lemma FinishedCovers(files: Files, v: Bytes, d: Download, j: Job, x: nat)
    requires Inv(files, v, d) && d.firstDone && d.job == Some(j) && Finished(j) && x < d.plan.total
    ensures Covered(d.slot.b.order, d.slot.b.regions, x)
  {
    var b := d.slot.b;
    if x < d.plan.end {
      assert Listed(b.order, b.regions, 0);
    } else {
      var c :| c > 0 && j.parts == Cut(d.plan.end, d.plan.total, c);
      var i := PartOf(d.plan.end, d.plan.total, c, x);
      FinishedPartsAreFull(files, v, d, j, i);
      assert Listed(b.order, b.regions, Id(i));
    }
  }

  /**
   When the first response is in and `finish` returns nil, every byte of the file
   has been written, so `Complete` succeeds unless the buffer was failed or closed.
   */
  lemma FinishCompletes(files: Files, v: Bytes, d: Download, j: Job)
    requires Inv(files, v, d) && d.firstDone && d.job == Some(j) && Finished(j)
    ensures d.slot.b.ready == d.plan.total
    ensures Completed(d.slot.b).1 == d.slot.b.err
  {
    var b := d.slot.b;
    ScanIsLongestPrefix(b.order, b.regions);
    if b.ready < d.plan.total {
      FinishedCovers(files, v, d, j, b.ready);
    }
  }

  // ----- Each part once -------------------------------------------------------------------------

  /** The parts handed out along a run. */
  ghost function HandedOut(files: Files, v: Bytes, d: Download, run: seq<RangedDownload.Event>): seq<nat>
    requires Inv(files, v, d) && Possible(files, v, d, run)
    decreases |run|
  {
    if run == [] then []
    else
      var here := if run[0].Claim? && d.job.value.next < d.job.value.parts.count then [d.job.value.next] else [];
      here + HandedOut(files, v, Apply(files, v, d, run[0]), run[1..])
  }

  ghost function NextIndex(d: Download): nat {
    if d.job.Some? then Handed(d.job.value) else 0
  }

  lemma ClaimHandsNext(files: Files, v: Bytes, d: Download, w: nat, d': Download)
    requires SlotOk(d.slot) && IsFree(d, w)
    requires d.job.value.next < d.job.value.parts.count ==> SlotEnabled(d.slot, NextPart(d.job.value))
    requires d' == Claimed(d, w)
    ensures NextIndex(d') == NextIndex(d) + if d.job.value.next < d.job.value.parts.count then 1 else 0
  {
  }

  lemma WorkersHandNothing(files: Files, d: Download, e: RangedDownload.Event)
    requires MovesWorker(e) && RangedDownload.Enabled(files, d, e)
    ensures NextIndex(WorkerMoved(files, d, e)) == NextIndex(d)
  {
  }

  lemma OthersHandNothing(files: Files, v: Bytes, d: Download, e: RangedDownload.Event, d': Download)
    requires Inv(files, v, d) && RangedDownload.Enabled(files, d, e) && d' == Apply(files, v, d, e)
    requires !e.Claim? && !MovesWorker(e) && !e.Respond?
    ensures NextIndex(d') == NextIndex(d)
  {
  }

  lemma ResponsesHandNothing(d: Download, w: nat, r: Response)
    requires Idle(d, w)
    ensures NextIndex(Responded(d, w, r)) == NextIndex(d)
  {
  }

  lemma EventHandsNext(files: Files, v: Bytes, d: Download, e: RangedDownload.Event, d': Download)
    requires Inv(files, v, d) && RangedDownload.Enabled(files, d, e) && d' == Apply(files, v, d, e)
    ensures NextIndex(d') == NextIndex(d) + if e.Claim? && d.job.value.next < d.job.value.parts.count then 1 else 0
  {
    if e.Claim? {
      ClaimKeepsInv(files, v, d, e.w);
      ClaimHandsNext(files, v, d, e.w, d');
    } else if MovesWorker(e) {
      WorkersHandNothing(files, d, e);
    } else if e.Respond? {
      ResponsesHandNothing(d, e.w, e.r);
    } else {
      OthersHandNothing(files, v, d, e, d');
    }
  }

  /** Workers racing for indexes get 0, 1, 2, … between them: none twice, none skipped. */
  lemma {:induction false} EachPartOnce(files: Files, v: Bytes, d: Download, run: seq<RangedDownload.Event>)
    requires Inv(files, v, d) && Possible(files, v, d, run)
    ensures NextIndex(After(files, v, d, run)) == NextIndex(d) + |HandedOut(files, v, d, run)|
    ensures forall k :: 0 <= k < |HandedOut(files, v, d, run)| ==> HandedOut(files, v, d, run)[k] == NextIndex(d) + k
    decreases |run|
  {
    if run != [] {
      var u := Apply(files, v, d, run[0]);
      EventHandsNext(files, v, d, run[0], u);
      EachPartOnce(files, v, u, run[1..]);
      var claims := run[0].Claim? && d.job.value.next < d.job.value.parts.count;
      HandedOn(NextIndex(d), if claims then [d.job.value.next] else [], NextIndex(u), HandedOut(files, v, u, run[1..]));
    }
  }

  lemma HandedOn(n: nat, here: seq<nat>, m: nat, rest: seq<nat>)
    requires here == [] || here == [n]
    requires m == n + |here| && forall k :: 0 <= k < |rest| ==> rest[k] == m + k
    ensures forall k :: 0 <= k < |here + rest| ==> (here + rest)[k] == n + k
  {
  }
}
