/**
 A ranged download filling one buffer: the first response, then parts fetched by
 several workers that claim indexes from a shared counter, resume a part where it
 stopped, and accept only responses for the pinned file.

 Servers answer anything at any time, truncate bodies and change the file between
 responses. They are honest in one sense only: a body holds bytes of some version
 of the file at the range it states, and a strong ETag identifies the version at
 one address (section 8.8.1 of RFC 9110).
 */
module RangedDownload {
  import opened Common
  import opened Ranges
  import opened Spool
  import opened SpoolRuns
  import opened SpoolContents

  // ----- Responses -----------------------------------------------------------------

  /** `length` is the declared body length, or negative; `clean` if the body ended by itself. */
  datatype Response = Response(status: nat, url: string, etag: string, range: string, length: int, body: Bytes, clean: bool)

  type Files = (string, string) -> Bytes

  /** The response's bytes are version `v`'s. */
  ghost predicate Carries(r: Response, v: Bytes) {
    && (r.status == 200 ==>
          && |r.body| <= |v| && r.body == v[..|r.body|]
          && (r.length >= 0 ==> |v| == r.length)
          && (r.length < 0 && r.clean ==> |r.body| == |v|))
    && (r.status == 206 && ContentRange(r.range).Some? ==>
          var span := ContentRange(r.range).value;
          && span.size == |v|
          && forall j :: 0 <= j < |r.body| && span.first + j <= span.last ==> r.body[j] == v[span.first + j])
  }

  ghost predicate Honest(files: Files, r: Response) {
    exists v :: Carries(r, v) && (r.status == 206 && StrongETag(r.etag) != "" ==> v == files(r.url, r.etag))
  }

  // ----- The first response ------------------------------------------------------------

  /** The response whose body starts the file; `end` is what it carries, `total` the size, -1 if unknown. */
  datatype Plan = Plan(r: Response, total: int, end: int, ranged: bool)

  /**
   Which response to use. Without a strong ETag the remaining parts could come
   from another version, so the whole file is asked for again (`whole`).
   */
  function Choose(ranged: bool, first: Response, whole: Response, maximum: int): Option<Plan> {
    var span := ContentRange(first.range);
    if first.status == 206 && ranged then
      if span.None? || span.value.first != 0 || (first.length >= 0 && first.length != span.value.last + 1) then None
      else if span.value.size > span.value.last + 1 && StrongETag(first.etag) == "" then
        if whole.status != 200 then None else Limited(Plan(whole, whole.length, whole.length, false), maximum)
      else Limited(Plan(first, span.value.size, span.value.last + 1, true), maximum)
    else if first.status == 200 then Limited(Plan(first, first.length, first.length, false), maximum)
    else None
  }

  function Limited(p: Plan, maximum: int): Option<Plan> {
    if maximum > 0 && p.total > maximum then None else Some(p)
  }

  /** Version `v` is the file the plan downloads. */
  ghost predicate Aims(files: Files, p: Plan, v: Bytes) {
    && (p.total >= 0 ==> |v| == p.total && 0 <= p.end <= p.total)
    && (p.total < 0 ==> p.end < 0 && !p.ranged)
    && (forall j :: 0 <= j < |p.r.body| && (p.end < 0 || j < p.end) ==> j < |v| && p.r.body[j] == v[j])
    && (p.end < 0 && p.r.clean ==> |p.r.body| == |v|)
    && (!p.ranged ==> p.end == p.total)
    && (p.ranged && p.total > p.end ==> p.end > 0 && StrongETag(p.r.etag) != "" && v == files(p.r.url, p.r.etag))
  }

  /** Any response chosen from honest answers aims at one version. */
  lemma ChosenAims(files: Files, ranged: bool, first: Response, whole: Response, maximum: int) returns (v: Bytes)
    requires Honest(files, first) && Honest(files, whole) && Choose(ranged, first, whole, maximum).Some?
    ensures Aims(files, Choose(ranged, first, whole, maximum).value, v)
  {
    var p := Choose(ranged, first, whole, maximum).value;
    v :| Carries(p.r, v) && (p.r.status == 206 && StrongETag(p.r.etag) != "" ==> v == files(p.r.url, p.r.etag));
  }

  predicate Allowed(size: int, maximum: int) {
    maximum <= 0 || size <= maximum
  }

  /** A range that begins at the first byte and is as long as the response declares. */
  predicate BeginsFile(r: Response) {
    var span := ContentRange(r.range);
    span.Some? && span.value.first == 0 && (r.length < 0 || r.length == span.value.last + 1)
  }

  /** The rest can be fetched safely, or there is none. */
  predicate CanContinue(r: Response)
    requires ContentRange(r.range).Some?
  {
    ContentRange(r.range).value.size == ContentRange(r.range).value.last + 1 || StrongETag(r.etag) != ""
  }

  /**
   Which first answers are taken. A whole file always is, if it is not too large. A
   part is taken if parts were asked for, it is the beginning, and the rest can be
   fetched safely; if it cannot, the file is taken from the second answer, if whole.
   */
  lemma TakenExactlyWhen(ranged: bool, first: Response, whole: Response, maximum: int)
    ensures var c := Choose(ranged, first, whole, maximum);
            && (first.status == 200 ==>
                  && (c.Some? <==> Allowed(first.length, maximum))
                  && (c.Some? ==> c.value == Plan(first, first.length, first.length, false)))
            && (first.status == 206 ==> (c.Some? ==> ranged && BeginsFile(first)))
            && (first.status == 206 && ranged && BeginsFile(first) && CanContinue(first) ==>
                  var span := ContentRange(first.range).value;
                  && (c.Some? <==> Allowed(span.size, maximum))
                  && (c.Some? ==> c.value == Plan(first, span.size, span.last + 1, true)))
            && (first.status == 206 && ranged && BeginsFile(first) && !CanContinue(first) ==>
                  && (c.Some? <==> whole.status == 200 && Allowed(whole.length, maximum))
                  && (c.Some? ==> c.value == Plan(whole, whole.length, whole.length, false)))
            && (first.status != 200 && first.status != 206 ==> c.None?)
  {
  }

  // ----- The parts ------------------------------------------------------------------------

  /** A response being copied; its first byte belongs at `base`. */
  datatype Stream = Stream(r: Response, base: nat)

  datatype Worker = Free | Fetching(index: nat, stream: Option<Stream>) | Exited

  datatype Job = Job(parts: Parts, next: nat, workers: map<nat, Worker>, err: bool, cancelled: bool, done: set<nat>)

  /** What `fetchOnce` makes of a response to a request for [offset, end). */
  datatype Verdict = Changed | Invalid | Accepted

  function Judge(p: Plan, offset: nat, end: nat, r: Response): Verdict {
    if r.url != p.r.url then Invalid
    else if r.status == 200 || (r.status == 206 && StrongETag(r.etag) != StrongETag(p.r.etag)) then Changed
    else if r.status != 206 || ContentRange(r.range) != Some(Span(offset, end - 1, p.total)) then Invalid
    else Accepted
  }

  /**
   A part's response is taken exactly when it comes from the pinned address with the
   pinned tag and is the very range that was asked for; the file counts as changed
   exactly when that address answers with the whole file or under another tag.
   */
  lemma JudgedExactly(p: Plan, offset: nat, end: nat, r: Response)
    ensures Judge(p, offset, end, r) == Accepted <==>
              r.url == p.r.url && r.status == 206 && StrongETag(r.etag) == StrongETag(p.r.etag)
              && ContentRange(r.range) == Some(Span(offset, end - 1, p.total))
    ensures Judge(p, offset, end, r) == Changed <==>
              r.url == p.r.url && (r.status == 200 || (r.status == 206 && StrongETag(r.etag) != StrongETag(p.r.etag)))
  {
  }

  /** Bytes of an accepted response are the pinned file's. */
  lemma AcceptedBelongs(files: Files, p: Plan, v: Bytes, offset: nat, end: nat, r: Response, j: nat, n: nat)
    requires Aims(files, p, v) && p.ranged && p.total > p.end && Honest(files, r)
    requires offset < end <= p.total && Judge(p, offset, end, r) == Accepted
    requires j + n <= |r.body| && offset + j + n <= end
    ensures Belongs(v, offset + j, r.body[j..j + n])
  {
    var w :| Carries(r, w) && (r.status == 206 && StrongETag(r.etag) != "" ==> w == files(r.url, r.etag));
    assert StrongETag(r.etag) == r.etag && StrongETag(p.r.etag) == p.r.etag;
    assert w == v;
    var p, q := r.body[j..j + n], v[offset + j..offset + j + n];
    forall i | 0 <= i < n ensures p[i] == q[i] {
      assert r.body[j + i] == v[offset + (j + i)];
    }
  }

  // ----- The run ------------------------------------------------------------------------------

  datatype Download = Download(slot: Slot, books: Books, plan: Plan, firstDone: bool, job: Option<Job>)

  datatype Event =
    | Body(n: nat, spill: bool, write: bool, garbage: Bytes)  // n more bytes of the first response
    | BodyEnd                                                 // it ended, whole
    | Announce(connections: nat, extra: nat)                  // its type is valid: the parts start
    | MainJoins                                               // `finish` makes the first connection a worker
    | Claim(w: nat)                                           // the next index from the counter
    | Leave(w: nat)                                           // the job was cancelled
    | Respond(w: nat, r: Response)
    | Push(w: nat, n: nat)                                    // n more bytes of a part's response
    | PartDone(w: nat)
    | Retry(w: nat)                                           // this attempt failed; resume later
    | GiveUp(w: nat)                                          // the part failed for good
    | Cancel
    | Local(e: SpoolRuns.Event)                               // the buffer's own steps

  /** Writer 0 takes the first response, writer i + 1 part i. */
  function Id(index: nat): nat { index + 1 }

  ghost predicate IsLocal(e: SpoolRuns.Event) {
    e.CopyByte? || e.EndWrite? || e.DiskFault? || e.Pin? || e.Unpin? || e.Fail? || e.Close?
  }

  ghost predicate Streaming(d: Download, w: nat) {
    d.job.Some? && w in d.job.value.workers && d.job.value.workers[w].Fetching? && d.job.value.workers[w].stream.Some?
  }

  ghost predicate IsFree(d: Download, w: nat) {
    d.job.Some? && w in d.job.value.workers && d.job.value.workers[w].Free?
  }

  /** Worker `w` has a part and no write in progress. */
  ghost predicate Idle(d: Download, w: nat) {
    && d.job.Some? && w in d.job.value.workers && d.job.value.workers[w].Fetching?
    && Id(d.job.value.workers[w].index) in d.slot.b.regions && Id(d.job.value.workers[w].index) !in d.slot.flights
  }

  ghost predicate Enabled(files: Files, d: Download, e: Event) {
    var rs := d.slot.b.regions;
    match e
    case Body(n, _, _, _) => !d.firstDone && 0 in rs && 0 !in d.slot.flights && n > 0
                             && rs[0].Next() + n <= |d.plan.r.body| && (d.plan.end >= 0 ==> rs[0].Next() + n <= d.plan.end)
    case BodyEnd => !d.firstDone && 0 in rs && 0 !in d.slot.flights && d.plan.r.clean
                    && 0 < rs[0].Next() == |d.plan.r.body| && (d.plan.end >= 0 ==> rs[0].Next() == d.plan.end)
    case Announce(connections, extra) => d.job == None && d.plan.ranged && d.plan.total > d.plan.end && connections > 0
                                         && 0 <= d.plan.end && extra < connections && extra <= Cut(d.plan.end, d.plan.total, connections).count
    case MainJoins => d.firstDone && d.job.Some? && 0 !in d.job.value.workers
    case Claim(w) => IsFree(d, w) && !d.job.value.cancelled
    case Leave(w) => IsFree(d, w) && d.job.value.cancelled
    case Respond(w, r) => Idle(d, w) && d.job.value.workers[w].stream == None && Honest(files, r)
    case Push(w, n) => Streaming(d, w) && n > 0
                       && var i, st := d.job.value.workers[w].index, d.job.value.workers[w].stream.value;
                          && Id(i) in rs && Id(i) !in d.slot.flights && st.base <= rs[Id(i)].Next()
                          && rs[Id(i)].Next() - st.base + n <= |st.r.body|
    case PartDone(w) => Streaming(d, w)
                        && var i, st := d.job.value.workers[w].index, d.job.value.workers[w].stream.value;
                           && Id(i) in rs && Id(i) !in d.slot.flights && st.r.clean
                           && rs[Id(i)].Next() == st.base + |st.r.body| && rs[Id(i)].Next() == d.job.value.parts.End(i)
    case Retry(w) => Streaming(d, w) && Idle(d, w)
    case GiveUp(w) => Idle(d, w)
    case Cancel => d.job.Some?
    case Local(x) => IsLocal(x) && SlotEnabled(d.slot, x)
  }

  // ----- The invariant ----------------------------------------------------------------------------

  ghost predicate FirstOk(d: Download, v: Bytes) {
    var b := d.slot.b;
    && 0 in b.regions && b.regions[0].start == 0 && b.regions[0].end == d.plan.end
    && (d.plan.total >= 0 ==> b.size == d.plan.total)
    && (d.plan.total < 0 ==> b.size < 0)
    && (d.firstDone ==> b.regions[0].Next() == if d.plan.end >= 0 then d.plan.end else |v|)
  }

  ghost function Handed(j: Job): nat {
    if j.next < j.parts.count then j.next else j.parts.count
  }

  /** Range `id` is the first response's or a part handed out, and part `id` - 1 is a range if handed out. */
  ghost predicate RangeOk(b: Buffer, j: Job, id: nat) {
    && (id in b.regions && id > 0 ==> id - 1 < Handed(j) && b.regions[id].start == j.parts.Start(id - 1) && b.regions[id].end == j.parts.End(id - 1))
    && (0 < id <= Handed(j) ==> id in b.regions)
  }

  ghost predicate WorkerOk(files: Files, d: Download, j: Job, w: nat) {
    w in j.workers && j.workers[w].Fetching? ==>
      var i := j.workers[w].index;
      && i < Handed(j) && i !in j.done
      && (j.workers[w].stream.Some? ==>
            var st := j.workers[w].stream.value;
            && Id(i) in d.slot.b.regions
            && st.base <= d.slot.b.regions[Id(i)].Next()
            && st.base < j.parts.End(i)
            && Honest(files, st.r) && Judge(d.plan, st.base, j.parts.End(i), st.r) == Accepted)
  }

  ghost predicate Distinct(j: Job, w: nat, u: nat) {
    w in j.workers && u in j.workers && w != u && j.workers[w].Fetching? && j.workers[u].Fetching? ==> j.workers[w].index != j.workers[u].index
  }

  /** A part handed out is done or in the hands of a worker. */
  ghost predicate Accounted(b: Buffer, j: Job, i: nat) {
    && (i in j.done ==> i < Handed(j) && Id(i) in b.regions && b.regions[Id(i)].Next() == j.parts.End(i))
    && (i < Handed(j) && !j.err ==> i in j.done || exists w :: w in j.workers && j.workers[w].Fetching? && j.workers[w].index == i)
  }

  ghost predicate JobOk(files: Files, d: Download, j: Job) {
    && d.plan.ranged && 0 < d.plan.end < d.plan.total
    && (exists c :: c > 0 && j.parts == Cut(d.plan.end, d.plan.total, c))
    && (forall id: nat {:trigger RangeOk(d.slot.b, j, id)} :: RangeOk(d.slot.b, j, id))
    && (forall w: nat {:trigger WorkerOk(files, d, j, w)} :: WorkerOk(files, d, j, w))
    && (forall w: nat, u: nat {:trigger Distinct(j, w, u)} :: Distinct(j, w, u))
    && (forall i: nat {:trigger Accounted(d.slot.b, j, i)} :: Accounted(d.slot.b, j, i))
    && (j.err ==> j.cancelled)
    && (!j.cancelled && (exists w :: w in j.workers && j.workers[w].Exited?) ==> j.next > j.parts.count)
  }

  ghost predicate Inv(files: Files, v: Bytes, d: Download) {
    && Aims(files, d.plan, v)
    && SlotOk(d.slot) && Faithful(d.slot, v)
    && FirstOk(d, v)
    && (d.job == None ==> d.slot.b.regions.Keys == {0})
    && (d.job.Some? ==> JobOk(files, d, d.job.value))
  }

  // ----- Steps of the buffer -----------------------------------------------------------------------

  /** Ranges stay where they are and only fill up. */
  ghost predicate RangesKept(b: Buffer, b': Buffer) {
    && b'.size == b.size && b'.regions.Keys == b.regions.Keys
    && forall id <- b.regions ::
         && b'.regions[id].start == b.regions[id].start && b'.regions[id].end == b.regions[id].end
         && b.regions[id].Next() <= b'.regions[id].Next()
         && (b.regions[id].end >= 0 ==> b'.regions[id].Next() <= b.regions[id].end)
  }

  lemma BoundedBy(b: Buffer, id: nat)
    requires RegionsOk(b) && id in b.regions && b.regions[id].end >= 0
    ensures b.regions[id].Next() <= b.regions[id].end
  {
    assert Listed(b.order, b.regions, id);
    var k :| 0 <= k < |b.order| && b.order[k] == id;
  }

  /** Only the writer of a finished write moves on, by what it wrote. */
  ghost predicate OneMoves(b: Buffer, b': Buffer, id: nat, n: nat) {
    b'.size == b.size && (b'.regions == b.regions || (id in b.regions && b'.regions == Spool.After(b, id, n)))
  }

  lemma EndedMovesOne(b: Buffer, k: Books, id: nat, n: nat, ram: bool)
    requires id in b.regions && (ram ==> b.pinned > 0) && forall k :: 0 <= k < |b.order| ==> b.order[k] in b.regions
    ensures OneMoves(b, Ended(b, k, id, n, ram).0, id, n)
  {
  }

  lemma EndMovesOne(s: Slot, k: Books, e: SpoolRuns.Event, s': Slot, k': Books)
    requires SlotOk(s) && e.EndWrite? && SlotEnabled(s, e) && (s', k') == SlotStep(s, k, e)
    ensures OneMoves(s.b, s'.b, e.id, |s.flights[e.id].bytes|)
    ensures s.b.size >= 0
  {
    var f := s.flights[e.id];
    assert FlightOk(s.b, e.id, f);
    LeavingDropsPin(s, e.id);
    EndedMovesOne(s.b, k, e.id, |f.bytes|, f.ram);
  }

  lemma StoredMovesOne(b: Buffer, c: Buffer, id: nat, p: Bytes, write: bool, garbage: Bytes)
    requires id in b.regions && c.regions == b.regions && c.size == b.size
    requires forall k :: 0 <= k < |c.order| ==> c.order[k] in c.regions
    ensures OneMoves(b, Stored(c, id, p, write, garbage).0, id, |p|)
  {
  }

  lemma AppendedMovesOne(b: Buffer, k: Books, id: nat, p: Bytes, spill: bool, write: bool, garbage: Bytes, d: Buffer, k': Books, e: Option<Error>)
    requires id in b.regions && forall k :: 0 <= k < |b.order| ==> b.order[k] in b.regions
    requires (d, k', e) == Appended(b, k, id, p, spill, write, garbage)
    ensures OneMoves(b, d, id, |p|)
  {
    AppendSplits(b, k, id, p, spill, write, garbage, d, k', e);
    var (c, l, f) := MadeRoom(b, k, b.regions[id].written + |p|, spill);
    RoomKeepsContents(b, k, b.regions[id].written + |p|, spill, c, l, f);
    if f == None {
      StoredMovesOne(b, c, id, p, write, garbage);
    }
  }

  lemma AppendMovesOne(s: Slot, k: Books, e: SpoolRuns.Event, s': Slot, k': Books)
    requires SlotOk(s) && e.Append? && SlotEnabled(s, e) && (s', k') == SlotStep(s, k, e)
    ensures OneMoves(s.b, s'.b, e.id, |e.p|)
  {
    var (d, l, f) := Appended(s.b, k, e.id, e.p, e.spill, e.write, e.garbage);
    AppendedMovesOne(s.b, k, e.id, e.p, e.spill, e.write, e.garbage, d, l, f);
  }

  lemma StepMovesOne(s: Slot, k: Books, e: SpoolRuns.Event, s': Slot, k': Books) returns (id: nat, n: nat)
    requires SlotOk(s) && SlotEnabled(s, e) && (s', k') == SlotStep(s, k, e)
    requires IsLocal(e) || e.BeginWrite? || e.Append?
    ensures OneMoves(s.b, s'.b, id, n)
    ensures s.b.size < 0 && IsLocal(e) ==> s'.b.regions == s.b.regions
  {
    id, n := 0, 0;
    if e.Append? {
      id, n := e.id, |e.p|;
      AppendMovesOne(s, k, e, s', k');
    } else if e.EndWrite? {
      id, n := e.id, |s.flights[e.id].bytes|;
      EndMovesOne(s, k, e, s', k');
    }
  }

  lemma StepKeepsRanges(s: Slot, k: Books, e: SpoolRuns.Event, s': Slot, k': Books)
    requires SlotOk(s) && SlotEnabled(s, e) && (s', k') == SlotStep(s, k, e) && SlotOk(s')
    requires IsLocal(e) || e.BeginWrite? || e.Append?
    ensures RangesKept(s.b, s'.b)
    ensures s.b.size < 0 && IsLocal(e) ==> s'.b.regions == s.b.regions
  {
    var id, n := StepMovesOne(s, k, e, s', k');
    forall g <- s'.b.regions | s'.b.regions[g].end >= 0
      ensures s'.b.regions[g].Next() <= s'.b.regions[g].end
    {
      BoundedBy(s'.b, g);
    }
  }

  lemma JobSurvivesSlot(files: Files, d: Download, s: Slot, k: Books)
    requires d.job.Some? && JobOk(files, d, d.job.value) && RangesKept(d.slot.b, s.b)
    ensures JobOk(files, d.(slot := s, books := k), d.job.value)
  {
    var d' := d.(slot := s, books := k);
    var j := d.job.value;
    forall id: nat ensures RangeOk(s.b, j, id) {
      assert RangeOk(d.slot.b, j, id);
    }
    forall w: nat ensures WorkerOk(files, d', j, w) {
      assert WorkerOk(files, d, j, w);
    }
    forall i: nat ensures Accounted(s.b, j, i) {
      assert Accounted(d.slot.b, j, i) && RangeOk(d.slot.b, j, Id(i));
    }
  }

  lemma SlotMoves(files: Files, v: Bytes, d: Download, s: Slot, k: Books)
    requires Inv(files, v, d) && SlotOk(s) && Faithful(s, v) && RangesKept(d.slot.b, s.b)
    requires d.firstDone && d.plan.end < 0 ==> s.b.regions == d.slot.b.regions
    ensures Inv(files, v, d.(slot := s, books := k))
  {
    if d.job.Some? {
      JobSurvivesSlot(files, d, s, k);
    }
  }

  // ----- Steps of the job -----------------------------------------------------------------------------

  ghost function Set(j: Job, w: nat, worker: Worker): Job {
    j.(workers := j.workers[w := worker])
  }

  /**
   Worker `w` may move on: to a response accepted where its part stands, or away
   from its part when the part is full or the job has failed.
   */
  ghost predicate MayMove(files: Files, d: Download, j: Job, w: nat, worker: Worker, err: bool, cancelled: bool, done: set<nat>) {
    && (j.err ==> err) && (err ==> cancelled) && (j.cancelled ==> cancelled)
    && (worker.Exited? ==> cancelled)
    && (worker.Fetching? ==> w in j.workers && j.workers[w].Fetching? && j.workers[w].index == worker.index && done == j.done)
    && (worker.Fetching? && worker.stream.Some? ==>
          var st, i := worker.stream.value, worker.index;
          && Id(i) in d.slot.b.regions && st.base <= d.slot.b.regions[Id(i)].Next() && st.base < j.parts.End(i)
          && Honest(files, st.r) && Judge(d.plan, st.base, j.parts.End(i), st.r) == Accepted)
    && (done == j.done || (w in j.workers && j.workers[w].Fetching? && done == j.done + {j.workers[w].index}
                           && Id(j.workers[w].index) in d.slot.b.regions
                           && d.slot.b.regions[Id(j.workers[w].index)].Next() == j.parts.End(j.workers[w].index)))
    && (w in j.workers && j.workers[w].Fetching? && !worker.Fetching? ==> err || j.workers[w].index in done)
  }

  lemma WorkerMoves(files: Files, d: Download, j: Job, w: nat, worker: Worker, err: bool, cancelled: bool, done: set<nat>)
    requires JobOk(files, d, j) && MayMove(files, d, j, w, worker, err, cancelled, done)
    ensures JobOk(files, d, Set(j, w, worker).(err := err, cancelled := cancelled, done := done))
  {
    var j' := Set(j, w, worker).(err := err, cancelled := cancelled, done := done);
    assert WorkerOk(files, d, j, w);
    forall id: nat ensures RangeOk(d.slot.b, j', id) {
      assert RangeOk(d.slot.b, j, id);
    }
    forall u: nat ensures WorkerOk(files, d, j', u) {
      assert WorkerOk(files, d, j, u) && Distinct(j, u, w);
    }
    forall u: nat, x: nat ensures Distinct(j', u, x) {
      assert Distinct(j, u, x);
    }
    forall i: nat ensures Accounted(d.slot.b, j', i) {
      AccountMoves(d.slot.b, j, w, worker, err, cancelled, done, i);
    }
  }

  lemma AccountMoves(b: Buffer, j: Job, w: nat, worker: Worker, err: bool, cancelled: bool, done: set<nat>, i: nat)
    requires Accounted(b, j, i) && (j.err ==> err)
    requires worker.Fetching? ==> w in j.workers && j.workers[w].Fetching? && j.workers[w].index == worker.index && done == j.done
    requires w in j.workers && j.workers[w].Fetching? ==> j.workers[w].index < Handed(j)
    requires done == j.done || (w in j.workers && j.workers[w].Fetching? && done == j.done + {j.workers[w].index}
                                && Id(j.workers[w].index) in b.regions
                                && b.regions[Id(j.workers[w].index)].Next() == j.parts.End(j.workers[w].index))
    requires w in j.workers && j.workers[w].Fetching? && !worker.Fetching? ==> err || j.workers[w].index in done
    ensures Accounted(b, Set(j, w, worker).(err := err, cancelled := cancelled, done := done), i)
  {
    var j' := Set(j, w, worker).(err := err, cancelled := cancelled, done := done);
    if i < Handed(j) && !err && i !in j.done {
      var u :| u in j.workers && j.workers[u].Fetching? && j.workers[u].index == i;
      assert u in j'.workers && (u != w ==> j'.workers[u] == j.workers[u]);
    }
  }
}
