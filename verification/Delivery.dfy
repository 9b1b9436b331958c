/**
 One delivery: the operation that owns the retry allowance, the calls that upload
 its batches, the event that reports them and the verdict that ends it.

 What Telegram does with a request is part of each `Exchange`: the answer, and
 whether the message was in fact delivered.
 */
module Delivery {
  import opened Common

  datatype Error = Failure(code: string) | Canceled | Expired | Other

  // ----- The operation ---------------------------------------------------------------

  const MaxAttempts := 3

  datatype State = State(attempt: int, terminal: bool, started: bool, possible: bool, confirmed: bool, rejected: bool)

  /** How the request's context stands at a check, and when the locked section ends. */
  datatype Ctx = Ctx(before: Option<Error>, after: Option<Error>)

  function Retried(s: State, disabled: bool, c: Ctx): (State, bool) {
    if c.before.Some? || disabled || s.terminal || s.possible || s.attempt >= MaxAttempts then (s, false)
    else (s.(attempt := s.attempt + 1), c.after.None?)
  }

  /** From here on a message may exist. */
  function Committed(s: State, c: Ctx): (State, Option<Error>) {
    if s.terminal then (s, Some(Canceled))
    else if c.before.Some? then (s, c.before)
    else (s.(possible := true, rejected := false), c.after)
  }

  class Operation {
    var attempt: int
    var terminal: bool
    var started: bool
    var possible: bool
    var confirmed: bool
    var rejected: bool

    function View(): State
      reads this
    {
      State(attempt, terminal, started, possible, confirmed, rejected)
    }

    constructor (attempt: int)
      ensures View() == State(attempt, false, false, false, false, false)
    {
      this.attempt := attempt;
      terminal, started, possible, confirmed, rejected := false, false, false, false, false;
    }

    method AllowRetry(disabled: bool, c: Ctx) returns (ok: bool)
      modifies this
      ensures (View(), ok) == Retried(old(View()), disabled, c)
    {
      if c.before.Some? {
        return false;
      }
      if disabled || terminal || possible || attempt >= MaxAttempts {
        return false;
      }
      attempt := attempt + 1;
      return c.after.None?;
    }

    method BeforeDeliveryCommit(c: Ctx) returns (e: Option<Error>)
      modifies this
      ensures (View(), e) == Committed(old(View()), c)
    {
      if terminal {
        return Some(Canceled);
      }
      if c.before.Some? {
        return c.before;
      }
      possible := true;
      rejected := false;
      return c.after;
    }

    method MarkDeliveryStarted()
      modifies this
      ensures View() == old(View()).(started := true)
    {
      started := true;
    }

    method MarkDeliveryConfirmed()
      modifies this
      ensures View() == old(View()).(possible := true, confirmed := true)
    {
      possible := true;
      confirmed := true;
    }

    method MarkDeliveryRejected()
      modifies this
      ensures View() == old(View()).(rejected := true)
    {
      rejected := true;
    }

    method Finish() returns (s: State)
      modifies this
      ensures View() == old(View()).(terminal := true) && s == View()
    {
      terminal := true;
      s := View();
    }
  }

  // ----- One call -------------------------------------------------------------------------

  /** What comes back: nothing readable, or a JSON object's `ok` and `error_code` if it is one. */
  datatype Reply = Lost(error: Error) | Reply(status: int, isObject: bool, ok: Option<bool>, code: Option<int>)

  /** One call's fate: stopped before the gate, its context at the gate, the reply, and whether Telegram delivered. */
  datatype Exchange = Exchange(stop: Option<Error>, ctx: Ctx, reply: Reply, delivered: bool)

  predicate Accepts(r: Reply) {
    r.Reply? && r.isObject && r.ok == Some(true) && 200 <= r.status < 300
  }

  /** The only answer that proves nothing was sent: a readable client error. */
  predicate Refuses(r: Reply) {
    r.Reply? && !Accepts(r) && r.isObject && r.ok == Some(false) && r.code.Some? && 400 <= r.code.value < 500 && r.status < 500
  }

  /** Telegram does not deliver what it refuses. */
  predicate Honest(x: Exchange) {
    Refuses(x.reply) ==> !x.delivered
  }

  datatype Outcome = Outcome(s: State, error: Option<Error>, ok: bool, sent: bool)

  function Heard(s: State, r: Reply): Outcome {
    if r.Lost? then Outcome(s, Some(r.error), false, true)
    else if Accepts(r) then Outcome(s.(possible := true, confirmed := true), None, true, true)
    else if Refuses(r) then Outcome(s.(rejected := true), None, false, true)
    else Outcome(s, None, false, true)
  }

  /** A held call was committed, or will be, by its caller. */
  function Called(s: State, x: Exchange, held: bool): Outcome {
    if x.stop.Some? then Outcome(s, x.stop, false, false)
    else
      var (t, e) := if held then (s, None) else Committed(s, x.ctx);
      if e.Some? then Outcome(t, e, false, false)
      else Heard(t.(started := true), x.reply)
  }

  method Call(op: Operation, x: Exchange, held: bool) returns (error: Option<Error>, ok: bool, sent: bool)
    modifies op
    ensures Outcome(op.View(), error, ok, sent) == Called(old(op.View()), x, held)
  {
    if x.stop.Some? {
      return x.stop, false, false;
    }
    if !held {
      var e := op.BeforeDeliveryCommit(x.ctx);
      if e.Some? {
        return e, false, false;
      }
    }
    op.MarkDeliveryStarted();
    var r := x.reply;
    if r.Lost? {
      return Some(r.error), false, true;
    }
    ok := r.isObject && r.ok == Some(true) && 200 <= r.status < 300;
    if ok {
      op.MarkDeliveryConfirmed();
    } else if r.isObject {
      if r.ok == Some(false) && r.code.Some? && 400 <= r.code.value < 500 && r.status < 500 {
        op.MarkDeliveryRejected();
      }
    }
    return None, ok, true;
  }

  // ----- The delivery event ----------------------------------------------------------------

  datatype Ending = Unset | Succeeded | Partly | Refused | Failed | Cancelled

  datatype Report = Report(ending: Ending, failedStage: string, batches: nat, attempts: nat, succeeded: nat, errorCode: string)

  function Recorded(r: Report, ok: bool): Report {
    if ok then r.(succeeded := r.succeeded + 1) else r.(ending := Refused)
  }

  function ErrorCode(e: Error): string {
    match e
    case Failure(code) => code
    case Expired => "upstream_timeout"
    case Canceled => "request_canceled"
    case Other => "internal_error"
  }

  function Reported(r: Report, e: Option<Error>): Report {
    var ending := if e.Some? then Failed else r.ending;
    r.(errorCode := if e.Some? then ErrorCode(e.value) else r.errorCode,
       failedStage := if ending == Unset then "" else r.failedStage,
       ending := if ending == Unset then Succeeded else if r.succeeded > 0 then Partly else ending)
  }

  class DeliveryEvent {
    var ending: Ending
    var failedStage: string
    var batches: nat
    var attempts: nat
    var succeeded: nat
    var errorCode: string

    function View(): Report
      reads this
    {
      Report(ending, failedStage, batches, attempts, succeeded, errorCode)
    }

    constructor (failedStage: string, batches: nat)
      ensures View() == Report(Unset, failedStage, batches, 0, 0, "")
    {
      ending, this.failedStage, this.batches, attempts, succeeded, errorCode := Unset, failedStage, batches, 0, 0, "";
    }

    method SetStage(stage: string)
      modifies this
      ensures View() == old(View()).(failedStage := stage)
    {
      failedStage := stage;
    }

    method Attempt()
      modifies this
      ensures View() == old(View()).(attempts := old(View()).attempts + 1)
    {
      attempts := attempts + 1;
    }

    method Record(ok: bool)
      modifies this
      ensures View() == Recorded(old(View()), ok)
    {
      if ok {
        succeeded := succeeded + 1;
        return;
      }
      ending := Refused;
    }

    method Finish(e: Option<Error>)
      modifies this
      ensures View() == Reported(old(View()), e)
    {
      if e.Some? {
        ending, errorCode := Failed, "internal_error";
        match e.value {
          case Failure(code) => errorCode := code;
          case Expired => errorCode := "upstream_timeout";
          case Canceled => errorCode := "request_canceled";
          case Other =>
        }
      }
      if ending == Unset {
        ending, failedStage := Succeeded, "";
      } else if succeeded > 0 {
        ending := Partly;
      }
    }
  }

  // ----- Albums -------------------------------------------------------------------------------

  /** What a delivery leaves behind; `delivered` if Telegram delivered any of it. */
  datatype Delivered = Delivered(s: State, report: Report, error: Option<Error>, delivered: bool)

  /** The error of encoding the answers to several calls, if that fails. */
  function Encoded(calls: nat, encodes: bool): Option<Error> {
    if calls == 0 then Some(Failure("internal_error")) else if calls > 1 && !encodes then Some(Other) else None
  }

  /** One call a batch; the first that is not accepted is the last. */
  function Album(s: State, r: Report, xs: seq<Exchange>, made: nat, encodes: bool): Delivered
    decreases |xs|
  {
    if xs == [] then Delivered(s, r, Encoded(made, encodes), false)
    else
      var c := Called(s, xs[0], false);
      var d := c.sent && xs[0].delivered;
      var r1 := r.(attempts := r.attempts + 1);
      if c.error.Some? then Delivered(c.s, r1, c.error, d)
      else
        var r2 := Recorded(r1, c.ok);
        if !c.ok then Delivered(c.s, r2, Encoded(made + 1, encodes), d)
        else
          var rest := Album(c.s, r2, xs[1..], made + 1, encodes);
          rest.(delivered := d || rest.delivered)
  }

  /** The batches of an album and what comes of each. */
  method SendAlbum(op: Operation, event: DeliveryEvent, xs: seq<Exchange>, encodes: bool) returns (error: Option<Error>, ghost delivered: bool)
    modifies op, event
    ensures Delivered(op.View(), event.View(), error, delivered) == Album(old(op.View()), old(event.View()), xs, 0, encodes)
  {
    var made := 0;
    delivered := false;
    assert xs[0..] == xs;
    while made < |xs|
      invariant made <= |xs|
      invariant var a := Album(op.View(), event.View(), xs[made..], made, encodes);
                Album(old(op.View()), old(event.View()), xs, 0, encodes) == a.(delivered := delivered || a.delivered)
    {
      assert xs[made..][0] == xs[made] && xs[made..][1..] == xs[made + 1..];
      event.Attempt();
      var e, ok, sent := Call(op, xs[made], false);
      delivered := delivered || (sent && xs[made].delivered);
      if e.Some? {
        return e, delivered;
      }
      event.Record(ok);
      made := made + 1;
      if !ok {
        return Encoded(made, encodes), delivered;
      }
    }
    return Encoded(made, encodes), delivered;
  }

  function Flatten<T>(batches: seq<seq<T>>): seq<T> {
    if batches == [] then [] else Flatten(batches[..|batches| - 1]) + batches[|batches| - 1]
  }

  const BatchSize := 10

  lemma FlattenOn<T>(batches: seq<seq<T>>, b: seq<T>, rest: seq<T>)
    ensures Flatten(batches + [b]) == Flatten(batches) + b
    ensures Flatten(batches + [b]) + rest == Flatten(batches) + (b + rest)
  {
    assert (batches + [b])[..|batches|] == batches;
  }

  /** Batches in order, none over ten items and none alone, as few as possible. */
  method AlbumBatches<T>(items: seq<T>) returns (batches: seq<seq<T>>)
    ensures Flatten(batches) == items
    ensures forall b <- batches :: 1 <= |b| <= BatchSize && (|items| >= 2 ==> |b| >= 2)
    ensures |batches| == (|items| + 9) / 10
  {
    batches := [];
    var rest := items;
    while |rest| > BatchSize
      invariant Flatten(batches) + rest == items
      invariant forall b <- batches :: 1 <= |b| <= BatchSize && |b| >= 2
      invariant |batches| + (|rest| + 9) / 10 == (|items| + 9) / 10
      invariant |items| >= 2 ==> |rest| >= 2
    {
      var count := if |rest| == 11 then 9 else 10;
      FlattenOn(batches, rest[..count], rest[count..]);
      assert rest[..count] + rest[count..] == rest;
      batches := batches + [rest[..count]];
      rest := rest[count..];
    }
    if rest != [] {
      FlattenOn(batches, rest, []);
      batches := batches + [rest];
    }
  }

  // ----- Streaming one item ---------------------------------------------------------------------

  /** How a streamed delivery ends, once its earlier uploads were replaced. */
  datatype Last =
    | Unprepared(error: Error)                     // the media never became whole
    | Answered(x: Exchange)                        // Telegram answered before the media finished
    | Gated(ctx: Ctx, x: Exchange)                 // committed, then released
    | Converted(x: Exchange)                       // uploaded whole, as an ordinary call

  /** Uploads replaced by a new transfer: each may still have been answered. */
  function Replaced(s: State, xs: seq<Exchange>): State
    decreases |xs|
  {
    if xs == [] then s else Replaced(Called(s, xs[0], true).s, xs[1..])
  }

  function Ended(r: Report, c: Outcome, d: bool): Delivered {
    var r1 := r.(attempts := r.attempts + 1);
    if c.error.Some? then Delivered(c.s, r1, c.error, d) else Delivered(c.s, Recorded(r1, c.ok), None, d)
  }

  /** Some request of `xs` was sent and delivered. */
  predicate AnyDelivered(xs: seq<Exchange>) {
    exists i :: 0 <= i < |xs| && xs[i].stop.None? && xs[i].delivered
  }

  /**
   A streamed delivery. `replaced` are uploads of earlier transfers that answered, or
   failed, before the last step; `between` are those that do so after it began. With
   one upload in flight at a time there are none of the latter.
   */
  function Streamed(s: State, r: Report, replaced: seq<Exchange>, between: seq<Exchange>, last: Last): Delivered {
    var t := Replaced(s, replaced);
    var d := AnyDelivered(replaced) || AnyDelivered(between);
    match last
    case Unprepared(e) => Delivered(Replaced(t, between), r, Some(e), d)
    case Answered(x) =>
      var c := Called(Replaced(t, between), x, true);
      Ended(r.(failedStage := "upload"), c, d || (c.sent && x.delivered))
    case Gated(ctx, x) =>
      var (u, e) := Committed(t, ctx);
      if e.Some? then Delivered(Replaced(u, between), r, e, d)
      else
        var c := Called(Replaced(u, between), x, true);
        Ended(r.(failedStage := "upload"), c, d || (c.sent && x.delivered))
    case Converted(x) =>
      var r1 := r.(failedStage := "upload");
      if x.stop.Some? then Ended(r1, Outcome(Replaced(t, between), x.stop, false, false), d)
      else
        var (u, e) := Committed(t, x.ctx);
        if e.Some? then Ended(r1, Outcome(Replaced(u, between), e, false, false), d)
        else
          var c := Called(Replaced(u, between), x, true);
          Ended(r1, c, d || (c.sent && x.delivered))
  }

  /** Calls whose answers are only marked on the operation. */
  method CallReplaced(op: Operation, xs: seq<Exchange>)
    modifies op
    ensures op.View() == Replaced(old(op.View()), xs)
  {
    assert xs[0..] == xs;
    for i := 0 to |xs|
      invariant Replaced(op.View(), xs[i..]) == Replaced(old(op.View()), xs)
    {
      assert xs[i..][0] == xs[i] && xs[i..][1..] == xs[i + 1..];
      var e, ok, sent := Call(op, xs[i], true);
    }
  }

  /** What the streamed delivery waits for. */
  datatype Signal =
    | Starts(media: nat)                           // a transfer announced its buffer: its upload begins
    | Answers(x: Exchange, lost: bool)             // an upload's call ended; `lost` if its buffer had failed or was replaced
    | Finishes(error: Option<Error>, final: nat)   // the preparation ended, with this buffer

  predicate Decides(g: Signal) {
    g.Finishes? || (g.Answers? && !g.lost)
  }

  /** The first signal that ends the waiting. */
  function Decision(signals: seq<Signal>): (r: Option<Signal>)
    ensures r.Some? ==> Decides(r.value)
  {
    if signals == [] then None else if Decides(signals[0]) then Some(signals[0]) else Decision(signals[1..])
  }

  /** The lost uploads that answered before. */
  function LostAnswers(signals: seq<Signal>): seq<Exchange> {
    if signals == [] || Decides(signals[0]) then []
    else (if signals[0].Answers? then [signals[0].x] else []) + LostAnswers(signals[1..])
  }

  /** The buffers whose upload began before. */
  function Uploads(signals: seq<Signal>): set<nat> {
    if signals == [] || Decides(signals[0]) then {}
    else (if signals[0].Starts? then {signals[0].media} else {}) + Uploads(signals[1..])
  }

  /** How the delivery ends; `ctx` and `x` are the commit's context and the last call, if it comes to them. */
  function LastOf(signals: seq<Signal>, ctx: Ctx, x: Exchange): Last
    requires Decision(signals).Some?
  {
    match Decision(signals).value
    case Answers(y, _) => Answered(y)
    case Finishes(Some(e), _) => Unprepared(e)
    case Finishes(None, final) => if final in Uploads(signals) then Gated(ctx, x) else Converted(x)
    case Starts(_) => assert false; Answered(x)
  }

  /** Waits for the media, or for an answer that comes before it. */
  method AwaitMedia(op: Operation, signals: seq<Signal>) returns (decision: Signal, uploads: set<nat>)
    requires Decision(signals).Some?
    modifies op
    ensures op.View() == Replaced(old(op.View()), LostAnswers(signals))
    ensures decision == Decision(signals).value && uploads == Uploads(signals)
  {
    uploads := {};
    assert signals[0..] == signals;
    var i := 0;
    while !Decides(signals[i])
      invariant i < |signals| && Decision(signals[i..]) == Decision(signals)
      invariant Replaced(op.View(), LostAnswers(signals[i..])) == Replaced(old(op.View()), LostAnswers(signals))
      invariant uploads + Uploads(signals[i..]) == Uploads(signals)
      decreases |signals| - i
    {
      assert signals[i..][0] == signals[i] && signals[i..][1..] == signals[i + 1..];
      match signals[i] {
        case Starts(media) =>
          assert LostAnswers(signals[i..]) == LostAnswers(signals[i + 1..]);
          uploads := uploads + {media};
        case Answers(x, _) =>
          assert LostAnswers(signals[i..]) == [x] + LostAnswers(signals[i + 1..]);
          LostFirst(op.View(), x, LostAnswers(signals[i + 1..]));
          var e, ok, sent := Call(op, x, true);
        case Finishes(_, _) =>
      }
      i := i + 1;
    }
    decision := signals[i];
    assert signals[i..][0] == signals[i];
  }

  lemma LostFirst(s: State, x: Exchange, xs: seq<Exchange>)
    ensures Replaced(s, [x] + xs) == Replaced(Called(s, x, true).s, xs)
  {
    assert ([x] + xs)[1..] == xs;
  }

  method SendStreamed(op: Operation, event: DeliveryEvent, signals: seq<Signal>, between: seq<Exchange>, ctx: Ctx, x: Exchange)
    returns (error: Option<Error>)
    requires Decision(signals).Some?
    modifies op, event
    ensures var d := Streamed(old(op.View()), old(event.View()), LostAnswers(signals), between, LastOf(signals, ctx, x));
            op.View() == d.s && event.View() == d.report && error == d.error
  {
    var decision, uploads := AwaitMedia(op, signals);
    error := None;
    var released := false;
    if decision.Finishes? {
      error := decision.error;
      if error.None? {
        released := decision.final in uploads;
        error := if released then None else x.stop;
        if error.None? {
          error := op.BeforeDeliveryCommit(if released then ctx else x.ctx);
        }
      }
    }
    CallReplaced(op, between);
    if error.Some? && (released || decision.error.Some?) {
      return;
    }
    event.SetStage("upload");
    if error.Some? {
      event.Attempt();
      return;
    }
    var e, ok, sent := Call(op, if decision.Answers? then decision.x else x, true);
    event.Attempt();
    if e.Some? {
      return e;
    }
    event.Record(ok);
    return None;
  }

  /** Telegram never processes a request whose last bytes are withheld, unless it says it did. */
  predicate Withheld(x: Exchange) {
    x.delivered ==> Accepts(x.reply)
  }

  // ----- The verdict --------------------------------------------------------------------------------

  datatype Progress = NotStarted | Uncommitted | Unknown | Confirmed | PartlyDelivered | Rejected

  /** The handler's response: `data` is None when it is not valid JSON. */
  datatype Response = Response(status: int, errorCode: string, data: Option<string>, delivery: Option<Report>)

  datatype Terminal = Terminal(attempt: int, status: int, ending: Ending, errorCode: string, progress: Progress, safeToRetry: bool, result: string)

  /** The ending reported for a finished operation. */
  function EndingOf(s: State, delivery: Option<Report>, e: Option<Error>): Ending {
    if e == Some(Canceled) then Cancelled
    else if delivery.None? then if e.Some? then Failed else Succeeded
    else if delivery.value.ending == Refused && !s.rejected then Failed
    else delivery.value.ending
  }

  predicate KnownRefused(s: State, delivery: Option<Report>) {
    delivery.Some? && delivery.value.ending == Refused && s.rejected && !s.confirmed
  }

  /** The strongest thing that is known of the delivery. */
  function ProgressOf(s: State, delivery: Option<Report>): Progress {
    if KnownRefused(s, delivery) then Rejected
    else if delivery.Some? && delivery.value.ending == Partly then PartlyDelivered
    else if s.confirmed then Confirmed
    else if s.possible then Unknown
    else if s.started then Uncommitted
    else NotStarted
  }

  /** A retry is safe when nothing can have been delivered, and something is left to do. */
  predicate SafeToRetry(s: State, delivery: Option<Report>, e: Option<Error>) {
    && EndingOf(s, delivery, e) != Succeeded
    && (KnownRefused(s, delivery) || (!s.possible && !s.confirmed && !(delivery.Some? && delivery.value.ending == Partly)))
  }

  method OperationTerminal(op: Operation, result: Response, e: Option<Error>) returns (t: Terminal)
    modifies op
    ensures op.View() == old(op.View()).(terminal := true)
    ensures t.attempt == op.attempt && t.status == result.status && t.errorCode == result.errorCode
    ensures t.result == if result.data.Some? then result.data.value else "null"
    ensures t.ending == EndingOf(op.View(), result.delivery, e)
    ensures t.safeToRetry <==> SafeToRetry(op.View(), result.delivery, e)
    ensures t.progress == ProgressOf(op.View(), result.delivery)
  {
    var state := op.Finish();
    var delivery := result.delivery;
    var ending, progress, safe := Succeeded, NotStarted, true;
    if e.Some? {
      ending := Failed;
    }
    if delivery.Some? {
      ending := delivery.value.ending;
    }
    if e == Some(Canceled) {
      ending := Cancelled;
    }
    if state.started {
      progress := Uncommitted;
    }
    if state.possible {
      progress, safe := Unknown, false;
    }
    if state.confirmed {
      progress, safe := Confirmed, false;
    }
    if delivery.Some? {
      if delivery.value.ending == Partly {
        progress, safe := PartlyDelivered, false;
      }
      if delivery.value.ending == Refused && state.rejected && !state.confirmed {
        progress, safe := Rejected, true;
      }
    }
    if ending == Refused && !state.rejected {
      ending := Failed;
    }
    if ending == Succeeded {
      safe := false;
    }
    return Terminal(state.attempt, result.status, ending, result.errorCode, progress, safe,
                    if result.data.Some? then result.data.value else "null");
  }
}
