/**
 What the verdict on a delivery is worth: when it says a retry is safe, nothing was
 delivered, whatever Telegram did with requests it never answered.
 */
module DeliverySafety {
  import opened Common
  import opened Delivery

  // ----- Albums --------------------------------------------------------------------------

  /** The verdict on a delivery that left `d` behind. */
  ghost predicate SaysSafe(d: Delivered) {
    SafeToRetry(d.s.(terminal := true), Some(Reported(d.report, d.error)), d.error)
  }

  /** Nothing sent yet, nothing reported. */
  ghost predicate Fresh(s: State, r: Report) {
    !s.possible && !s.confirmed && r.ending == Unset && r.succeeded == 0
  }

  ghost predicate AllHonest(xs: seq<Exchange>) {
    forall i :: 0 <= i < |xs| ==> Honest(xs[i])
  }

  lemma {:induction false} ConfirmedStays(s: State, r: Report, xs: seq<Exchange>, made: nat, encodes: bool)
    requires s.confirmed
    ensures Album(s, r, xs, made, encodes).s.confirmed
    decreases |xs|
  {
    if xs != [] {
      var c := Called(s, xs[0], false);
      if c.error.None? && c.ok {
        ConfirmedStays(c.s, Recorded(r.(attempts := r.attempts + 1), true), xs[1..], made + 1, encodes);
      }
    }
  }

  /** The first batch decides: later ones are only sent once it was confirmed. */
  lemma AlbumIsFirstCall(s: State, r: Report, xs: seq<Exchange>, encodes: bool)
    requires xs != []
    ensures var c := Called(s, xs[0], false);
            var a := Album(s, r, xs, 0, encodes);
            if c.error.None? && c.ok then a.s.confirmed
            else a.s == c.s && a.delivered == (c.sent && xs[0].delivered)
                 && a.report.ending == (if c.error.None? then Refused else r.ending) && a.report.succeeded == r.succeeded && a.error == c.error
  {
    var c := Called(s, xs[0], false);
    if c.error.None? && c.ok {
      ConfirmedStays(c.s, Recorded(r.(attempts := r.attempts + 1), true), xs[1..], 1, encodes);
    }
  }

  /**
   The verdict is sound: if it says a retry is safe, no batch was delivered, for
   every number of batches and every way the calls can go.
   */
  lemma SafeAlbumDeliveredNothing(s: State, r: Report, xs: seq<Exchange>, encodes: bool)
    requires Fresh(s, r) && AllHonest(xs) && SaysSafe(Album(s, r, xs, 0, encodes))
    ensures !Album(s, r, xs, 0, encodes).delivered
  {
    if xs != [] {
      AlbumIsFirstCall(s, r, xs, encodes);
    }
  }

  /** The gate of a call is passed: from then on a message may exist. */
  ghost predicate Commits(s: State, x: Exchange) {
    x.stop.None? && !s.terminal && x.ctx.before.None?
  }

  /** The first call reached Telegram and was definitely refused. */
  ghost predicate RefusedAtOnce(s: State, x: Exchange) {
    Commits(s, x) && x.ctx.after.None? && Refuses(x.reply)
  }

  /**
   Exactly when an album's verdict says a retry is safe: the first batch never
   passed its gate, or Telegram refused it.
   */
  lemma AlbumIsSafeExactlyWhen(s: State, r: Report, xs: seq<Exchange>, encodes: bool)
    requires Fresh(s, r) && !s.rejected && xs != []
    ensures SaysSafe(Album(s, r, xs, 0, encodes)) <==> !Commits(s, xs[0]) || RefusedAtOnce(s, xs[0])
  {
    AlbumIsFirstCall(s, r, xs, encodes);
  }

  /** How many batches an album attempted. */
  ghost function Attempted(r: Report, d: Delivered): int {
    d.report.attempts - r.attempts
  }

  /** Every batch but the last one attempted was sent and accepted, and counted as such. */
  lemma {:induction false} EarlierBatchesWereAccepted(s: State, r: Report, xs: seq<Exchange>, made: nat, encodes: bool)
    ensures var d := Album(s, r, xs, made, encodes);
            var n := Attempted(r, d);
            && 0 <= n <= |xs|
            && (forall k :: 0 <= k < n - 1 ==> xs[k].stop.None? && Accepts(xs[k].reply))
            && n - 1 <= d.report.succeeded - r.succeeded <= n
            && (n < |xs| ==> n > 0 && d.report.succeeded - r.succeeded == n - 1)
    decreases |xs|
  {
    if xs != [] {
      var c := Called(s, xs[0], false);
      if c.error.None? && c.ok {
        var r2 := Recorded(r.(attempts := r.attempts + 1), true);
        EarlierBatchesWereAccepted(c.s, r2, xs[1..], made + 1, encodes);
        var n := Attempted(r2, Album(c.s, r2, xs[1..], made + 1, encodes));
        forall k | 0 <= k < n ensures xs[k].stop.None? && Accepts(xs[k].reply) {
          assert k > 0 ==> xs[k] == xs[1..][k - 1];
        }
      }
    }
  }

  /**
   An album that went past its first batch and stopped at a refusal or an error, at
   whatever batch, ends as partly delivered, and a retry is never called safe.
   */
  lemma StoppedLaterIsPartial(s: State, r: Report, xs: seq<Exchange>, encodes: bool)
    requires Fresh(s, r) && Attempted(r, Album(s, r, xs, 0, encodes)) >= 2
    ensures var d := Album(s, r, xs, 0, encodes);
            && !SaysSafe(d)
            && (d.report.ending == Refused || d.error.Some? ==> Reported(d.report, d.error).ending == Partly)
  {
    EarlierBatchesWereAccepted(s, r, xs, 0, encodes);
    AlbumIsFirstCall(s, r, xs, encodes);
  }

  // ----- How deliveries end ------------------------------------------------------------------

  /** The call is made: its upload is ready, the gate passes it, and its context outlives the gate. */
  ghost predicate IsMade(s: State, x: Exchange) {
    x.stop.None? && !s.terminal && x.ctx.before.None? && x.ctx.after.None?
  }

  ghost predicate IsAccepted(s: State, x: Exchange) {
    IsMade(s, x) && Accepts(x.reply)
  }

  /** Everything was accepted, and the answers could be reported. */
  ghost predicate AllWell(s: State, xs: seq<Exchange>, encodes: bool) {
    xs != [] && (forall k :: 0 <= k < |xs| ==> IsAccepted(s, xs[k])) && (|xs| == 1 || encodes)
  }

  lemma {:induction false} AlbumCounts(s: State, r: Report, xs: seq<Exchange>, made: nat, encodes: bool)
    requires r.ending == Unset && made + |xs| > 0
    ensures var d := Album(s, r, xs, made, encodes);
            var all := forall k :: 0 <= k < |xs| ==> IsAccepted(s, xs[k]);
            && (d.report.ending == Unset && d.error.None? <==> all && (made + |xs| == 1 || encodes))
            && d.report.succeeded >= r.succeeded
            && (d.report.ending == Unset || d.report.ending == Refused)
    decreases |xs|
  {
    if xs != [] && IsAccepted(s, xs[0]) {
      var c := Called(s, xs[0], false);
      var r2 := Recorded(r.(attempts := r.attempts + 1), true);
      AlbumCounts(c.s, r2, xs[1..], made + 1, encodes);
      assert forall k :: 0 <= k < |xs[1..]| ==> xs[1..][k] == xs[k + 1];
      assert (forall k :: 0 <= k < |xs| ==> IsAccepted(s, xs[k])) <==> forall k :: 0 <= k < |xs[1..]| ==> IsAccepted(c.s, xs[1..][k]) by {
        forall k | 0 < k < |xs| ensures IsAccepted(s, xs[k]) <==> IsAccepted(c.s, xs[1..][k - 1]) {
        }
      }
    }
  }

  /**
   How an album ends: well exactly when every batch was accepted and the answers could
   be reported; in part exactly when that is not so but the first batch was accepted;
   refused when Telegram answered the first otherwise; and failed when it did not answer.
   */
  lemma AlbumEndsExactly(s: State, r: Report, xs: seq<Exchange>, encodes: bool)
    requires r.ending == Unset && r.succeeded == 0 && xs != []
    ensures var d := Album(s, r, xs, 0, encodes);
            Reported(d.report, d.error).ending ==
            if AllWell(s, xs, encodes) then Succeeded
            else if IsAccepted(s, xs[0]) then Partly
            else if IsMade(s, xs[0]) && xs[0].reply.Reply? then Refused
            else Failed
  {
    AlbumCounts(s, r, xs, 0, encodes);
    var c := Called(s, xs[0], false);
    if IsAccepted(s, xs[0]) {
      AlbumCounts(c.s, Recorded(r.(attempts := r.attempts + 1), true), xs[1..], 1, encodes);
    } else {
      assert !IsAccepted(s, xs[0]);
    }
  }

  /** What the verdict says became of an album is so, whatever Telegram did with it. */
  lemma AlbumProgressIsTrue(s: State, r: Report, xs: seq<Exchange>, encodes: bool)
    requires Fresh(s, r) && !s.started && !s.rejected && xs != []
    ensures var d := Album(s, r, xs, 0, encodes);
            ProgressOf(d.s.(terminal := true), Some(Reported(d.report, d.error))) ==
            if !Commits(s, xs[0]) then NotStarted
            else if RefusedAtOnce(s, xs[0]) then Rejected
            else if !IsAccepted(s, xs[0]) then Unknown
            else if AllWell(s, xs, encodes) then Confirmed
            else PartlyDelivered
  {
    AlbumIsFirstCall(s, r, xs, encodes);
    AlbumEndsExactly(s, r, xs, encodes);
  }

  /** The last call of a streamed delivery, if it comes to one. */
  ghost predicate LastIsMade(s: State, last: Last) {
    match last
    case Unprepared(_) => false
    case Answered(x) => x.stop.None?
    case Gated(ctx, x) => !s.terminal && ctx.before.None? && ctx.after.None? && x.stop.None?
    case Converted(x) => IsMade(s, x)
  }

  lemma {:induction false} ReplacedKeepsTerminal(s: State, xs: seq<Exchange>)
    ensures Replaced(s, xs).terminal == s.terminal
    decreases |xs|
  {
    if xs != [] {
      ReplacedKeepsTerminal(Called(s, xs[0], true).s, xs[1..]);
    }
  }

  /** How a streamed delivery ends: by its last call alone, whatever other uploads were told. */
  lemma StreamEndsExactly(s: State, r: Report, replaced: seq<Exchange>, between: seq<Exchange>, last: Last)
    requires r.ending == Unset && r.succeeded == 0
    ensures var d := Streamed(s, r, replaced, between, last);
            Reported(d.report, d.error).ending ==
            if !LastIsMade(s, last) || last.x.reply.Lost? then Failed
            else if Accepts(last.x.reply) then Succeeded
            else Refused
  {
    ReplacedKeepsTerminal(s, replaced);
  }

  /** It counts as one attempt at the upload, but if the media never became whole or the gate of an announced one refused. */
  lemma StreamAttemptsOnce(s: State, r: Report, replaced: seq<Exchange>, between: seq<Exchange>, last: Last)
    ensures var d := Streamed(s, r, replaced, between, last);
            var before := last.Unprepared? || (last.Gated? && (s.terminal || last.ctx.before.Some? || last.ctx.after.Some?));
            && d.report.failedStage == (if before then r.failedStage else "upload")
            && d.report.attempts == r.attempts + (if before then 0 else 1)
            && d.report.succeeded == r.succeeded + (if LastIsMade(s, last) && Accepts(last.x.reply) then 1 else 0)
  {
    ReplacedKeepsTerminal(s, replaced);
  }

  /** The place of the signal that decides. */
  ghost predicate DecidesAt(signals: seq<Signal>, k: nat) {
    k < |signals| && Decides(signals[k]) && forall j :: 0 <= j < k ==> !Decides(signals[j])
  }

  /** What the waiting hears: the first signal that decides, every answer of a lost upload before it, and every announced buffer before it. */
  lemma {:induction false} WaitingHearsAll(signals: seq<Signal>, k: nat)
    requires DecidesAt(signals, k)
    ensures Decision(signals) == Some(signals[k])
    ensures forall m :: m in Uploads(signals) <==> exists j :: 0 <= j < k && signals[j] == Starts(m)
    ensures forall x :: x in LostAnswers(signals) <==> exists j :: 0 <= j < k && signals[j] == Answers(x, true)
    ensures LostAnswers(signals) == LostAnswers(signals[..k])
    decreases k
  {
    if k > 0 {
      var rest := signals[1..];
      assert forall j :: 0 <= j < |rest| ==> rest[j] == signals[j + 1];
      WaitingHearsAll(rest, k - 1);
      forall m ensures m in Uploads(signals) <==> exists j :: 0 <= j < k && signals[j] == Starts(m) {
        if m in Uploads(rest) {
          var j :| 0 <= j < k - 1 && rest[j] == Starts(m);
          assert signals[j + 1] == Starts(m);
        }
        if j :| 0 <= j < k && signals[j] == Starts(m) {
          assert j > 0 ==> rest[j - 1] == Starts(m);
        }
      }
      forall x ensures x in LostAnswers(signals) <==> exists j :: 0 <= j < k && signals[j] == Answers(x, true) {
        if x in LostAnswers(rest) {
          var j :| 0 <= j < k - 1 && rest[j] == Answers(x, true);
          assert signals[j + 1] == Answers(x, true);
        }
        if j :| 0 <= j < k && signals[j] == Answers(x, true) {
          assert j > 0 ==> rest[j - 1] == Answers(x, true);
        }
      }
      assert signals[..k][1..] == rest[..k - 1];
    }
  }

  /** And the answers are heard in the order in which they came. */
  lemma {:induction false} AnswersComeInOrder(signals: seq<Signal>, g: Signal)
    requires !Decides(g) && forall j :: 0 <= j < |signals| ==> !Decides(signals[j])
    ensures LostAnswers(signals + [g]) == LostAnswers(signals) + if g.Answers? then [g.x] else []
    ensures LostAnswers([]) == []
    decreases |signals|
  {
    if signals == [] {
      assert [g][1..] == [] && signals + [g] == [g];
    } else {
      AnswersComeInOrder(signals[1..], g);
      assert (signals + [g])[1..] == signals[1..] + [g];
    }
  }

  /** The upload that waits is released exactly when the media were announced and became whole; converted media are uploaded anew. */
  lemma ReleasedExactlyWhen(signals: seq<Signal>, ctx: Ctx, x: Exchange)
    requires Decision(signals).Some?
    ensures var d, l := Decision(signals).value, LastOf(signals, ctx, x);
            && (l == Gated(ctx, x) <==> d.Finishes? && d.error.None? && d.final in Uploads(signals))
            && (l == Converted(x) <==> d.Finishes? && d.error.None? && d.final !in Uploads(signals))
            && (l.Unprepared? <==> d.Finishes? && d.error.Some?) && (l.Unprepared? ==> l.error == d.error.value)
            && (l.Answered? <==> d.Answers?) && (l.Answered? ==> l.x == d.x && !d.lost)
  {
  }

  /** The codes by which a failed delivery is known to the caller. */
  lemma FailuresAreNamed(r: Report, code: string)
    ensures Reported(r, Some(Failure(code))).errorCode == code
    ensures Reported(r, Some(Expired)).errorCode == "upstream_timeout"
    ensures Reported(r, Some(Canceled)).errorCode == "request_canceled"
    ensures Reported(r, Some(Other)).errorCode == "internal_error"
    ensures Reported(r, None).errorCode == r.errorCode
    ensures forall e :: Reported(r, e).failedStage == if e.None? && r.ending == Unset then "" else r.failedStage
  {
  }

  // ----- Streamed deliveries ---------------------------------------------------------------

  ghost predicate AllWithheld(xs: seq<Exchange>) {
    forall i :: 0 <= i < |xs| ==> Withheld(xs[i])
  }

  /** Some request of `xs` was sent, and refused, or accepted. */
  ghost predicate AnyRefused(xs: seq<Exchange>) {
    exists i :: 0 <= i < |xs| && xs[i].stop.None? && Refuses(xs[i].reply)
  }

  ghost predicate AnyAccepted(xs: seq<Exchange>) {
    exists i :: 0 <= i < |xs| && xs[i].stop.None? && Accepts(xs[i].reply)
  }

  lemma AnySplits(xs: seq<Exchange>)
    requires xs != []
    ensures AnyRefused(xs) <==> (xs[0].stop.None? && Refuses(xs[0].reply)) || AnyRefused(xs[1..])
    ensures AnyAccepted(xs) <==> (xs[0].stop.None? && Accepts(xs[0].reply)) || AnyAccepted(xs[1..])
  {
    assert forall i :: 0 <= i < |xs[1..]| ==> xs[1..][i] == xs[i + 1];
    assert forall i :: 0 < i < |xs| ==> xs[i] == xs[1..][i - 1];
  }

  /** Answers to held uploads leave exactly these marks. */
  lemma {:induction false} ReplacedMarks(s: State, xs: seq<Exchange>)
    ensures var t := Replaced(s, xs);
            && t.confirmed == (s.confirmed || AnyAccepted(xs))
            && t.rejected == (s.rejected || AnyRefused(xs))
            && t.possible == (s.possible || AnyAccepted(xs))
            && t.terminal == s.terminal
    decreases |xs|
  {
    if xs != [] {
      AnySplits(xs);
      ReplacedMarks(Called(s, xs[0], true).s, xs[1..]);
    }
  }

  lemma DeliveredIsAccepted(xs: seq<Exchange>)
    requires AllWithheld(xs) && AnyDelivered(xs)
    ensures AnyAccepted(xs)
  {
    var i :| 0 <= i < |xs| && xs[i].stop.None? && xs[i].delivered;
    assert Withheld(xs[i]);
  }

  ghost predicate LastHonest(last: Last) {
    match last
    case Unprepared(_) => true
    case Answered(x) => Withheld(x)
    case Gated(_, x) => Honest(x)
    case Converted(x) => Honest(x)
  }

  ghost predicate Sound(d: Delivered) {
    SaysSafe(d) ==> !d.delivered
  }

  /** Whatever the last step does: if the verdict says a retry is safe, nothing was delivered. */
  ghost predicate VerdictIsSound(s: State, r: Report, replaced: seq<Exchange>, between: seq<Exchange>) {
    forall last {:trigger Streamed(s, r, replaced, between, last)} :: LastHonest(last) ==>
      Sound(Streamed(s, r, replaced, between, last))
  }

  /** No refusal arrives during the last step, or something was accepted, which settles the verdict. */
  ghost predicate NotMisled(replaced: seq<Exchange>, between: seq<Exchange>) {
    !AnyRefused(between) || AnyAccepted(replaced) || AnyAccepted(between)
  }

  lemma ErrorIsSound(u: State, r: Report, e: Error, d: bool)
    requires d ==> u.confirmed
    ensures Sound(Delivered(u, r, Some(e), d))
  {
  }

  /** The end of a call after which `u` holds: released, or still withheld. */
  lemma EndIsSound(u: State, r: Report, x: Exchange, d: bool)
    requires r.ending == Unset && r.succeeded == 0 && (d ==> u.confirmed)
    requires Withheld(x) || (Honest(x) && u.possible && (u.rejected ==> u.confirmed))
    ensures var c := Called(u, x, true); Sound(Ended(r, c, d || (c.sent && x.delivered)))
  {
  }

  lemma GateIsSound(t: State, r: Report, between: seq<Exchange>, ctx: Ctx, x: Exchange, d: bool)
    requires r.ending == Unset && r.succeeded == 0 && Honest(x)
    requires d ==> t.confirmed || AnyAccepted(between)
    requires t.terminal || (AnyRefused(between) ==> t.confirmed || AnyAccepted(between))
    ensures var (u, e) := Committed(t, ctx);
            e == None ==> var c := Called(Replaced(u, between), x, true); Sound(Ended(r, c, d || (c.sent && x.delivered)))
    ensures var (u, e) := Committed(t, ctx); d ==> Replaced(u, between).confirmed
  {
    var (u, e) := Committed(t, ctx);
    ReplacedMarks(u, between);
    if e == None {
      EndIsSound(Replaced(u, between), r, x, d);
    }
  }

  lemma MarkedIsSound(s: State, r: Report, replaced: seq<Exchange>, between: seq<Exchange>, last: Last)
    requires Fresh(s, r) && AllWithheld(replaced) && AllWithheld(between) && LastHonest(last) && (s.terminal || NotMisled(replaced, between))
    ensures Sound(Streamed(s, r, replaced, between, last))
  {
    var t := Replaced(s, replaced);
    var d := AnyDelivered(replaced) || AnyDelivered(between);
    ReplacedMarks(s, replaced);
    ReplacedMarks(t, between);
    if AnyDelivered(replaced) {
      DeliveredIsAccepted(replaced);
    }
    if AnyDelivered(between) {
      DeliveredIsAccepted(between);
    }
    var r1 := r.(failedStage := "upload");
    match last {
      case Unprepared(e) => ErrorIsSound(Replaced(t, between), r, e, d);
      case Answered(x) => EndIsSound(Replaced(t, between), r1, x, d);
      case Gated(ctx, x) => GateIsSound(t, r1, between, ctx, x, d);
      case Converted(x) => GateIsSound(t, r1, between, x.ctx, x, d);
    }
  }

  /** An upload released, answered unreadably, and delivered all the same. */
  ghost function Garbled(): Last {
    Gated(Ctx(None, None), Exchange(None, Ctx(None, None), Reply(502, false, None, None), true))
  }

  lemma MisledIsUnsound(s: State, r: Report, replaced: seq<Exchange>, between: seq<Exchange>)
    requires Fresh(s, r) && !s.terminal && !NotMisled(replaced, between)
    ensures LastHonest(Garbled())
    ensures var d := Streamed(s, r, replaced, between, Garbled()); SaysSafe(d) && d.delivered
  {
    var t := Replaced(s, replaced);
    ReplacedMarks(s, replaced);
    ReplacedMarks(Committed(t, Ctx(None, None)).0, between);
  }

  /**
   Exactly when the verdict on a streamed delivery can be trusted, whatever its last
   step does: no upload that was replaced is refused once that step has begun, or
   some upload was accepted before or during it, or the operation had ended already.
   */
  lemma StreamIsSoundExactlyWhen(s: State, r: Report, replaced: seq<Exchange>, between: seq<Exchange>)
    requires Fresh(s, r) && AllWithheld(replaced) && AllWithheld(between)
    ensures VerdictIsSound(s, r, replaced, between) <==> s.terminal || NotMisled(replaced, between)
  {
    if s.terminal || NotMisled(replaced, between) {
      forall last | LastHonest(last)
        ensures Sound(Streamed(s, r, replaced, between, last))
      {
        MarkedIsSound(s, r, replaced, between, last);
      }
    } else {
      MisledIsUnsound(s, r, replaced, between);
    }
  }

  /** With each replaced upload finished before the next one starts, it always can. */
  lemma SafeStreamDeliveredNothing(s: State, r: Report, replaced: seq<Exchange>, last: Last)
    requires Fresh(s, r) && AllWithheld(replaced) && LastHonest(last)
    requires SaysSafe(Streamed(s, r, replaced, [], last))
    ensures !Streamed(s, r, replaced, [], last).delivered
  {
    MarkedIsSound(s, r, replaced, [], last);
  }

  /**
   An answer to a replaced upload that arrives after the commit breaks the rule:
   its refusal is taken for the refusal of the upload that was released.
   */
  lemma OverlappingUploadsCanMislead()
    ensures exists s, r, between ::
              Fresh(s, r) && !s.terminal && AllWithheld(between) && !VerdictIsSound(s, r, [], between)
  {
    var s := State(1, false, false, false, false, false);
    var r := Report(Unset, "preparation", 1, 0, 0, "");
    var refused := Exchange(None, Ctx(None, None), Reply(400, true, Some(false), Some(400)), false);
    assert [refused][0].stop.None? && Refuses([refused][0].reply);
    StreamIsSoundExactlyWhen(s, r, [], [refused]);
  }

  // ----- The operation over a whole run ------------------------------------------------------

  datatype Step =
    | Retry(disabled: bool, c: Ctx)
    | Commit(c: Ctx)
    | Start
    | Confirm
    | Reject
    | Finish

  function Stepped(s: State, e: Step): State {
    match e
    case Retry(disabled, c) => Retried(s, disabled, c).0
    case Commit(c) => Committed(s, c).0
    case Start => s.(started := true)
    case Confirm => s.(possible := true, confirmed := true)
    case Reject => s.(rejected := true)
    case Finish => s.(terminal := true)
  }

  function Run(s: State, es: seq<Step>): State
    decreases |es|
  {
    if es == [] then s else Run(Stepped(s, es[0]), es[1..])
  }

  /** Retries allowed along a run. */
  function Allowed(s: State, es: seq<Step>): nat
    decreases |es|
  {
    if es == [] then 0
    else (if es[0].Retry? && Retried(s, es[0].disabled, es[0].c).1 then 1 else 0) + Allowed(Stepped(s, es[0]), es[1..])
  }

  /** Commits passed along a run. */
  function Passed(s: State, es: seq<Step>): nat
    decreases |es|
  {
    if es == [] then 0
    else (if es[0].Commit? && Committed(s, es[0].c).1.None? then 1 else 0) + Passed(Stepped(s, es[0]), es[1..])
  }

  /**
   However its stages interleave, an operation is attempted at most three times;
   nothing is retried once a message may exist, and nothing at all happens after
   its verdict.
   */
  lemma {:induction false} RetriesAreBounded(s: State, es: seq<Step>)
    requires s.attempt <= MaxAttempts
    ensures s.attempt + Allowed(s, es) <= Run(s, es).attempt <= MaxAttempts
    ensures s.possible || s.terminal ==> Allowed(s, es) == 0 && Run(s, es).attempt == s.attempt
    ensures s.terminal ==> Passed(s, es) == 0 && Run(s, es).terminal
    ensures s.possible ==> Run(s, es).possible
    decreases |es|
  {
    if es != [] {
      RetriesAreBounded(Stepped(s, es[0]), es[1..]);
    }
  }

  /** Retries of an operation that nothing prevents. */
  function FreeRetries(n: nat): seq<Step> {
    if n == 0 then [] else [Retry(false, Ctx(None, None))] + FreeRetries(n - 1)
  }

  /** And as many retries as the limit leaves are granted, as long as nothing was committed or ended. */
  lemma {:induction false} RetriesAreGranted(s: State, n: nat)
    requires !s.terminal && !s.possible && s.attempt + n <= MaxAttempts
    ensures Allowed(s, FreeRetries(n)) == n && Run(s, FreeRetries(n)) == s.(attempt := s.attempt + n)
    decreases n
  {
    if n > 0 {
      var c := Ctx(None, None);
      var u := Stepped(s, Retry(false, c));
      assert FreeRetries(n)[1..] == FreeRetries(n - 1);
      RetriesAreGranted(u, n - 1);
    }
  }

  /** A retry is granted exactly when nothing prevents it, and only a live context can still use it up. */
  lemma RetryIsGrantedExactlyWhen(s: State, disabled: bool, c: Ctx)
    ensures var (t, ok) := Retried(s, disabled, c);
            var allowed := !disabled && !s.terminal && !s.possible && s.attempt < MaxAttempts && c.before.None?;
            && (ok <==> allowed && c.after.None?)
            && t == (if allowed then s.(attempt := s.attempt + 1) else s)
  {
  }

  /** What one call leaves known: confirmed by an acceptance only, possible by passing the gate or an acceptance, rejected by a definite refusal that nothing followed. */
  lemma CallMarksExactly(s: State, x: Exchange, held: bool)
    ensures var c := Called(s, x, held);
            var made := if held then x.stop.None? else IsMade(s, x);
            && (c.sent <==> made)
            && (c.ok <==> made && Accepts(x.reply))
            && (c.error.None? <==> made && x.reply.Reply?)
            && (c.s.confirmed <==> s.confirmed || c.ok)
            && (c.s.started <==> s.started || made)
            && (c.s.possible <==> s.possible || c.ok || (!held && Commits(s, x)))
            && (c.s.rejected <==> (made && Refuses(x.reply)) || (s.rejected && (held || !Commits(s, x))))
            && c.s.terminal == s.terminal && c.s.attempt == s.attempt
  {
  }

  /** Which replies count as acceptance and as refusal: Telegram's own, and the borderline ones. */
  lemma RepliesAreRead(status: int, code: int)
    ensures Accepts(Reply(status, true, Some(true), None)) <==> 200 <= status < 300
    ensures !Accepts(Reply(status, true, Some(false), Some(code))) && !Accepts(Reply(status, true, None, None)) && !Accepts(Reply(status, false, None, None))
    ensures Refuses(Reply(status, true, Some(false), Some(code))) <==> 400 <= code < 500 && status < 500
    ensures !Refuses(Reply(status, true, Some(false), None)) && !Refuses(Reply(status, false, None, None)) && !Refuses(Reply(status, true, Some(true), Some(code)))
  {
  }
}
