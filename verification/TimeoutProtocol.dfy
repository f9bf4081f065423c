/**
 The request-timeout protocol: the handler's goroutine, the middleware's goroutine, the deadline, and
 the two channels between them, as interleaved atomic steps over the buffer and the wire of
 TimeoutWriter. A handler is any finite sequence of writer operations followed by a normal return or
 a panic; a run is any sequence of events, each enabled in the state it meets.
 */
module TimeoutProtocol {
  import opened Wrappers
  import opened TimeoutWriter

  type Panic = string

  datatype End = Finishes | Panics(value: Panic)

  datatype Handler = Handler(ops: seq<Op>, end: End)

  /** The handler's goroutine: inside the chain, after `recover` caught a panic, before `close`, gone. */
  datatype HandlerPhase = Running | Recovered(value: Panic) | Closing | Closed

  /** The middleware's goroutine, by the statement it executes next. */
  datatype MiddlewarePhase =
    | Selecting                 // the outer select
    | FinishedFirst             // the inner select after `finished` won
    | DeadlineFirst             // the locked half of writer.timeout
    | SettingType | SendingStatus | SendingBody   // its three writes after the unlock
    | AwaitingHandler           // <-finished
    | Draining                  // the last select
    | Returned
    | Raised(value: Panic)

  /** `restored` says that c.Writer is the real writer again; `logged` is what the last select logged. */
  datatype State = State(
    writer: Buffered,
    wire: Wire,
    pc: nat,
    handler: HandlerPhase,
    middleware: MiddlewarePhase,
    done: bool,
    panicked: Option<Panic>,
    finished: bool,
    restored: bool,
    logged: seq<Panic>)

  datatype Event = HandlerStep | Deadline | TakeFinished | TakeDone | MiddlewareStep

  function Init(wire: Wire): State {
    State(FRESH, wire, 0, Running, Selecting, false, None, false, false, [])
  }

  function StepHandler(h: Handler, s: State): Option<State> {
    match s.handler
    case Running =>
      if s.pc < |h.ops| then Some(s.(writer := Perform(s.writer, h.ops[s.pc]), pc := s.pc + 1))
      else if s.pc > |h.ops| then None
      else (match h.end
            case Finishes => Some(s.(handler := Closing))
            case Panics(v) => Some(s.(handler := Recovered(v))))
    case Recovered(v) =>
      // A send on a channel of capacity one: blocked while a value is waiting.
      if s.panicked.None? then Some(s.(handler := Closing, panicked := Some(v))) else None
    case Closing => Some(s.(handler := Closed, finished := true))
    case Closed => None
  }

  function StepMiddleware(body: string, s: State): Option<State> {
    match s.middleware
    case Selecting => None
    case FinishedFirst =>
      (match s.panicked
       case Some(v) => Some(s.(panicked := None, restored := true, middleware := Raised(v)))
       case None => Some(s.(writer := Flushed(s.writer), wire := Delivered(s.wire, s.writer), middleware := Returned)))
    case DeadlineFirst =>
      Some(s.(writer := Expired(s.writer), middleware := if s.writer.flushed then AwaitingHandler else SettingType))
    case SettingType => Some(s.(wire := WithJsonType(s.wire), middleware := SendingStatus))
    case SendingStatus => Some(s.(wire := WithStatus(s.wire, STATUS_GATEWAY_TIMEOUT), middleware := SendingBody))
    case SendingBody => Some(s.(wire := WithBody(s.wire, body), middleware := AwaitingHandler))
    case AwaitingHandler => if s.finished then Some(s.(middleware := Draining)) else None
    case Draining =>
      (match s.panicked
       case Some(v) => Some(s.(panicked := None, logged := s.logged + [v], middleware := Returned))
       case None => Some(s.(middleware := Returned)))
    case Returned => None
    case Raised(_) => None
  }

  /** One atomic step; None when the event is not enabled. With both channels ready, either Take is. */
  function Next(h: Handler, body: string, s: State, e: Event): Option<State> {
    match e
    case HandlerStep => StepHandler(h, s)
    case Deadline => if s.done then None else Some(s.(done := true))
    case TakeFinished =>
      if s.middleware.Selecting? && s.finished then Some(s.(middleware := FinishedFirst)) else None
    case TakeDone =>
      if s.middleware.Selecting? && s.done then Some(s.(middleware := DeadlineFirst)) else None
    case MiddlewareStep => StepMiddleware(body, s)
  }

  function Run(h: Handler, body: string, s: State, es: seq<Event>): Option<State> {
    if es == [] then Some(s)
    else match Run(h, body, s, es[..|es| - 1])
         case None => None
         case Some(middle) => Next(h, body, middle, es[|es| - 1])
  }

  ghost predicate Terminal(s: State) {
    s.middleware.Returned? || s.middleware.Raised?
  }

  // ----- The invariant ---------------------------------------------------------------------------

  ghost predicate Untouched(m: MiddlewarePhase) {
    m in {Selecting, FinishedFirst, DeadlineFirst} || m.Raised?
  }

  ghost predicate HandlerInv(h: Handler, s: State) {
    && s.pc <= |h.ops|
    && (!s.handler.Running? ==> s.pc == |h.ops|)
    && (s.finished <==> s.handler.Closed?)
    && (s.handler.Recovered? ==> h.end == Panics(s.handler.value))
  }

  /** Once sent, a panic value is in exactly one place: in the channel, raised again, or logged. */
  ghost predicate PanicInv(h: Handler, s: State) {
    var sent := s.handler.Closing? || s.handler.Closed?;
    if sent && h.end.Panics? then
      || (s.panicked == Some(h.end.value) && !s.middleware.Raised? && s.logged == [])
      || (s.panicked == None && s.middleware == Raised(h.end.value) && s.logged == [])
      || (s.panicked == None && !s.middleware.Raised? && s.logged == [h.end.value])
    else
      s.panicked == None && !s.middleware.Raised? && s.logged == []
  }

  ghost predicate MiddlewareInv(s: State) {
    && (s.middleware.FinishedFirst? || s.middleware.Draining? || Terminal(s) ==> s.finished)
    && (s.middleware.Returned? ==> s.panicked.None?)
    && (s.restored <==> s.middleware.Raised?)
    && (s.logged != [] ==> s.middleware.Returned? && s.writer.timedOut)
  }

  ghost predicate WriterInv(h: Handler, wire: Wire, body: string, s: State)
    requires s.pc <= |h.ops|
  {
    var produced := PerformAll(FRESH, h.ops[..s.pc]);
    && (Untouched(s.middleware) ==> s.writer == produced && s.wire == wire)
    && (s.middleware.SettingType? ==> s.wire == wire)
    && (s.middleware.SendingStatus? ==> s.wire == WithJsonType(wire))
    && (s.middleware.SendingBody? ==> s.wire == WithStatus(WithJsonType(wire), STATUS_GATEWAY_TIMEOUT))
    && (s.middleware.AwaitingHandler? || s.middleware.Draining? ==> s.wire == Refused(wire, body))
    && (!Untouched(s.middleware) && !s.middleware.Returned? ==> s.writer.timedOut)
    && (s.middleware.Returned? ==>
          if s.writer.timedOut then s.wire == Refused(wire, body)
          else s.writer == Flushed(produced) && s.wire == Delivered(wire, produced) && h.end.Finishes?)
    && (s.writer.timedOut ==> !s.writer.flushed && s.writer.buffer == "" && s.writer.status == STATUS_GATEWAY_TIMEOUT)
  }

  ghost predicate Inv(h: Handler, wire: Wire, body: string, s: State) {
    && HandlerInv(h, s)
    && PanicInv(h, s)
    && MiddlewareInv(s)
    && WriterInv(h, wire, body, s)
  }

  lemma Unlatched(ops: seq<Op>)
    ensures !PerformAll(FRESH, ops).timedOut && !PerformAll(FRESH, ops).flushed
  {
    BufferHoldsWholeResponse(ops);
  }

  lemma PerformNext(ops: seq<Op>, pc: nat)
    requires pc < |ops|
    ensures PerformAll(FRESH, ops[..pc + 1]) == Perform(PerformAll(FRESH, ops[..pc]), ops[pc])
    ensures !PerformAll(FRESH, ops[..pc]).timedOut && !PerformAll(FRESH, ops[..pc]).flushed
  {
    assert ops[..pc + 1][..pc] == ops[..pc];
    BufferHoldsWholeResponse(ops[..pc]);
  }

  lemma HandlerKeepsInv(h: Handler, wire: Wire, body: string, s: State)
    requires Inv(h, wire, body, s) && StepHandler(h, s).Some?
    ensures Inv(h, wire, body, StepHandler(h, s).value)
  {
    if s.handler.Running? && s.pc < |h.ops| {
      PerformNext(h.ops, s.pc);
    }
  }

  lemma MiddlewareKeepsPanicInv(h: Handler, wire: Wire, body: string, s: State)
    requires Inv(h, wire, body, s) && StepMiddleware(body, s).Some?
    ensures HandlerInv(h, StepMiddleware(body, s).value)
    ensures PanicInv(h, StepMiddleware(body, s).value)
    ensures MiddlewareInv(StepMiddleware(body, s).value)
  {
    assert s.logged == [] ==> forall v: Panic :: s.logged + [v] == [v];
  }

  lemma MiddlewareKeepsWriterInv(h: Handler, wire: Wire, body: string, s: State)
    requires Inv(h, wire, body, s) && StepMiddleware(body, s).Some?
    ensures WriterInv(h, wire, body, StepMiddleware(body, s).value)
  {
    Unlatched(h.ops[..s.pc]);
    match s.middleware
    case FinishedFirst =>
    case DeadlineFirst =>
    case _ =>
  }

  lemma StepKeepsInv(h: Handler, wire: Wire, body: string, s: State, e: Event)
    requires Inv(h, wire, body, s) && Next(h, body, s, e).Some?
    ensures Inv(h, wire, body, Next(h, body, s, e).value)
  {
    match e
    case HandlerStep => HandlerKeepsInv(h, wire, body, s);
    case MiddlewareStep =>
      MiddlewareKeepsPanicInv(h, wire, body, s);
      MiddlewareKeepsWriterInv(h, wire, body, s);
    case _ =>
  }

  lemma {:induction false} RunKeepsInv(h: Handler, wire: Wire, body: string, es: seq<Event>)
    requires Run(h, body, Init(wire), es).Some?
    ensures Inv(h, wire, body, Run(h, body, Init(wire), es).value)
  {
    if es == [] {
      assert h.ops[..0] == [];
    } else {
      var front := es[..|es| - 1];
      RunKeepsInv(h, wire, body, front);
      StepKeepsInv(h, wire, body, Run(h, body, Init(wire), front).value, es[|es| - 1]);
    }
  }

  // ----- The results -----------------------------------------------------------------------------

  /** The wire carries the handler's whole response: its last status, all its headers, all its writes. */
  ghost predicate CarriesWholeResponse(h: Handler, before: Wire, after: Wire) {
    && after.heads == before.heads + [Head(LastStatus(h.ops), after.headers)]
    && after.body == before.body + AllWrites(h.ops)
    && forall key :: Values(after.headers, key) == Values(before.headers, key) + HeaderValues(h.ops, key)
  }

  /** The wire carries one 504 with the timeout body, and nothing the handler wrote. */
  ghost predicate CarriesTimeout(before: Wire, after: Wire, body: string) {
    && after.headers == before.headers["Content-Type" := ["application/json; charset=utf-8"]]
    && after.heads == before.heads + [Head(504, after.headers)]
    && after.body == before.body + body
  }

  /** A 504 is only ever prepared after the deadline or the client's departure closed the context. */
  lemma {:induction false} DoneBeforeTimeout(h: Handler, wire: Wire, body: string, es: seq<Event>)
    requires Run(h, body, Init(wire), es).Some?
    ensures var s := Run(h, body, Init(wire), es).value;
            s.middleware.DeadlineFirst? || s.writer.timedOut ==> s.done
  {
    if es != [] {
      DoneBeforeTimeout(h, wire, body, es[..|es| - 1]);
      RunKeepsInv(h, wire, body, es[..|es| - 1]);
    }
  }

  /**
   Whatever the interleaving, when the middleware is done exactly one of three things has happened:
   the handler's whole response was sent, one 504 was sent, or nothing was sent and the panic was
   raised again with the real writer back in place. `Status()` then reports the status sent.
   */
  lemma ExactlyOneResponse(h: Handler, wire: Wire, body: string, es: seq<Event>, s: State)
    requires Run(h, body, Init(wire), es) == Some(s) && Terminal(s)
    ensures match s.middleware
            case Raised(v) => s.wire == wire && s.restored && h.end == Panics(v)
            case _ =>
              && !s.restored
              && (if s.writer.timedOut then s.done && CarriesTimeout(wire, s.wire, body)
                  else h.end.Finishes? && CarriesWholeResponse(h, wire, s.wire))
              && s.wire.heads == wire.heads + [Head(s.writer.status, s.wire.headers)]
  {
    RunKeepsInv(h, wire, body, es);
    DoneBeforeTimeout(h, wire, body, es);
    assert h.ops[..s.pc] == h.ops;
    BufferHoldsWholeResponse(h.ops);
  }

  /** At no point of any run are there two statuses, or bytes of the body before its status. */
  lemma NeverTwoStatuses(h: Handler, wire: Wire, body: string, es: seq<Event>, s: State)
    requires Run(h, body, Init(wire), es) == Some(s)
    ensures |s.wire.heads| <= |wire.heads| + 1
    ensures s.wire.body != wire.body ==> |s.wire.heads| == |wire.heads| + 1
    ensures s.middleware.Selecting? || s.middleware.Raised? ==> s.wire == wire
  {
    RunKeepsInv(h, wire, body, es);
  }

  /** The middleware never returns, and never panics, while the handler may still touch the context. */
  lemma HandlerHasLeft(h: Handler, wire: Wire, body: string, es: seq<Event>, s: State)
    requires Run(h, body, Init(wire), es) == Some(s) && Terminal(s)
    ensures s.handler.Closed? && s.finished && s.pc == |h.ops|
    ensures StepHandler(h, s).None?
  {
    RunKeepsInv(h, wire, body, es);
  }

  /** A panic is raised again once or logged once; without a panic, neither happens. */
  lemma PanicNeverLost(h: Handler, wire: Wire, body: string, es: seq<Event>, s: State)
    requires Run(h, body, Init(wire), es) == Some(s) && Terminal(s)
    ensures (if s.middleware.Raised? then [s.middleware.value] else []) + s.logged
            == if h.end.Panics? then [h.end.value] else []
    ensures s.logged != [] ==> s.writer.timedOut
  {
    RunKeepsInv(h, wire, body, es);
  }

  /** The `flushed` test inside `timeout` never succeeds. */
  lemma FlushedBranchUnreachable(h: Handler, wire: Wire, body: string, es: seq<Event>, s: State)
    requires Run(h, body, Init(wire), es) == Some(s) && s.middleware.DeadlineFirst?
    ensures !s.writer.flushed && StepMiddleware(body, s).value.middleware == SettingType
  {
    RunKeepsInv(h, wire, body, es);
    BufferHoldsWholeResponse(h.ops[..s.pc]);
  }

  /**
   What `Written()` tells: while the handler runs, exactly whether it has written a byte; once its response
   was sent, yes, even for an empty one; and after a timeout no, although a 504 is or will be on the wire.
   */
  lemma WrittenMeans(h: Handler, wire: Wire, body: string, es: seq<Event>, s: State)
    requires Run(h, body, Init(wire), es) == Some(s)
    ensures s.pc <= |h.ops|
    ensures ReportsWritten(s.writer) <==>
              !s.writer.timedOut && (s.middleware.Returned? || AllWrites(h.ops[..s.pc]) != "")
    ensures s.middleware.Returned? ==>
              |s.wire.heads| == |wire.heads| + 1 && (ReportsWritten(s.writer) <==> !s.writer.timedOut)
  {
    RunKeepsInv(h, wire, body, es);
    BufferHoldsWholeResponse(h.ops[..s.pc]);
  }

  // ----- Progress --------------------------------------------------------------------------------

  /** Until the middleware is done, one of the two goroutines can move without help from the clock. */
  lemma NoDeadlock(h: Handler, wire: Wire, body: string, es: seq<Event>, s: State) returns (e: Event)
    requires Run(h, body, Init(wire), es) == Some(s) && !Terminal(s)
    ensures e != Deadline && Next(h, body, s, e).Some?
  {
    RunKeepsInv(h, wire, body, es);
    e := if !s.finished then HandlerStep else if s.middleware.Selecting? then TakeFinished else MiddlewareStep;
  }

  function HandlerLeft(h: Handler, s: State): nat {
    match s.handler
    case Running => 3 + if s.pc <= |h.ops| then |h.ops| - s.pc else 0
    case Recovered(_) => 2
    case Closing => 1
    case Closed => 0
  }

  function MiddlewareLeft(s: State): nat {
    match s.middleware
    case Selecting => 7
    case FinishedFirst => 1
    case DeadlineFirst => 6
    case SettingType => 5
    case SendingStatus => 4
    case SendingBody => 3
    case AwaitingHandler => 2
    case Draining => 1
    case Returned => 0
    case Raised(_) => 0
  }

  function Measure(h: Handler, s: State): nat {
    HandlerLeft(h, s) + MiddlewareLeft(s) + if s.done then 0 else 1
  }

  lemma HandlerStepDecreases(h: Handler, s: State)
    requires StepHandler(h, s).Some?
    ensures var s' := StepHandler(h, s).value;
            HandlerLeft(h, s') < HandlerLeft(h, s) && s'.middleware == s.middleware && s'.done == s.done
  {
    hide Perform;
  }

  lemma MiddlewareStepDecreases(h: Handler, body: string, s: State)
    requires StepMiddleware(body, s).Some?
    ensures var s' := StepMiddleware(body, s).value;
            && MiddlewareLeft(s') < MiddlewareLeft(s)
            && s'.handler == s.handler && s'.pc == s.pc && s'.done == s.done
  {
    hide Flushed, Delivered, Expired, WithJsonType, WithStatus, WithBody;
  }

  lemma StepDecreases(h: Handler, body: string, s: State, e: Event)
    requires Next(h, body, s, e).Some?
    ensures Measure(h, Next(h, body, s, e).value) < Measure(h, s)
  {
    hide StepHandler, StepMiddleware;
    match e
    case HandlerStep => HandlerStepDecreases(h, s);
    case MiddlewareStep => MiddlewareStepDecreases(h, body, s);
    case _ =>
  }

  /** Every step brings the end closer, so no run is longer than the handler's operations allow. */
  lemma {:induction false} RunsEnd(h: Handler, body: string, s: State, es: seq<Event>)
    requires Run(h, body, s, es).Some?
    ensures |es| + Measure(h, Run(h, body, s, es).value) <= Measure(h, s)
  {
    if es != [] {
      var front := es[..|es| - 1];
      RunsEnd(h, body, s, front);
      StepDecreases(h, body, Run(h, body, s, front).value, es[|es| - 1]);
    }
  }

  lemma OneMore(h: Handler, body: string, s: State, es: seq<Event>, e: Event)
    requires Run(h, body, s, es).Some?
    ensures Run(h, body, s, es + [e]) == Next(h, body, Run(h, body, s, es).value, e)
  {
    assert (es + [e])[..|es + [e]| - 1] == es;
  }

  /** From any point of any run the middleware can still reach its end, with no further deadline. */
  lemma {:induction false} AlwaysCanEnd(h: Handler, wire: Wire, body: string, es: seq<Event>) returns (more: seq<Event>)
    requires Run(h, body, Init(wire), es).Some?
    ensures Deadline !in more
    ensures Run(h, body, Init(wire), es + more).Some? && Terminal(Run(h, body, Init(wire), es + more).value)
    decreases Measure(h, Run(h, body, Init(wire), es).value)
  {
    hide Measure, Next, StepHandler, StepMiddleware;
    var s := Run(h, body, Init(wire), es).value;
    if Terminal(s) {
      more := [];
      assert es + more == es;
    } else {
      var e := NoDeadlock(h, wire, body, es, s);
      OneMore(h, body, Init(wire), es, e);
      StepDecreases(h, body, s, e);
      var rest := AlwaysCanEnd(h, wire, body, es + [e]);
      more := [e] + rest;
      assert es + more == es + [e] + rest;
    }
  }

  /** The steps after the deadline branch is taken: the three writes, the wait, the last select. */
  function AfterDeadline(body: string, s: State, i: nat): State
    requires i <= 6
  {
    var typed := WithJsonType(s.wire);
    var started := WithStatus(typed, STATUS_GATEWAY_TIMEOUT);
    var t := s.(writer := Expired(s.writer));
    match i
    case 0 => s
    case 1 => t.(middleware := SettingType)
    case 2 => t.(wire := typed, middleware := SendingStatus)
    case 3 => t.(wire := started, middleware := SendingBody)
    case 4 => t.(wire := WithBody(started, body), middleware := AwaitingHandler)
    case 5 => t.(wire := WithBody(started, body), middleware := Draining)
    case _ => t.(wire := WithBody(started, body), middleware := Returned)
  }

  lemma TakingDeadlineEnds(h: Handler, body: string, s: State) returns (es: seq<Event>)
    requires s.middleware.Selecting? && s.finished && s.done && s.panicked.None? && !s.writer.flushed
    ensures Run(h, body, s, es) == Some(AfterDeadline(body, s.(middleware := DeadlineFirst), 6))
  {
    es := [TakeDone];
    OneMore(h, body, s, [], TakeDone);
    assert [] + es == es;
    var d := s.(middleware := DeadlineFirst);
    for i := 0 to 6
      invariant Run(h, body, s, es) == Some(AfterDeadline(body, d, i))
    {
      OneMore(h, body, s, es, MiddlewareStep);
      es := es + [MiddlewareStep];
    }
  }

  /** With `finished` closed and the context done, the select may take either: both answers occur. */
  lemma BothReadyEitherWins(h: Handler, wire: Wire, body: string, es: seq<Event>, s: State)
    returns (kept: seq<Event>, dropped: seq<Event>)
    requires Run(h, body, Init(wire), es) == Some(s)
    requires s.middleware.Selecting? && s.finished && s.done && h.end.Finishes?
    ensures var k := Run(h, body, s, kept);
            k.Some? && k.value.middleware.Returned? && k.value.wire == Delivered(wire, s.writer)
    ensures var d := Run(h, body, s, dropped);
            d.Some? && d.value.middleware.Returned? && d.value.wire == Refused(wire, body)
  {
    RunKeepsInv(h, wire, body, es);
    Unlatched(h.ops[..s.pc]);
    kept := [TakeFinished];
    OneMore(h, body, s, [], TakeFinished);
    assert [] + kept == kept;
    OneMore(h, body, s, kept, MiddlewareStep);
    kept := kept + [MiddlewareStep];
    dropped := TakingDeadlineEnds(h, body, s);
  }
}
