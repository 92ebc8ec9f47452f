/**
  One connection as a transition system: bytes arrive, the reactor's pump asks the
  framer and delivers, the glue answers, and workers resolve parked requests. Handler
  verdicts, worker outcomes, drains and the cutting of the byte stream into arrivals
  are all arbitrary.
*/
module Connection {
  import opened Bytes
  import opened HttpTypes
  import opened Glue
  import F = Framer
  import R = ChunkedReaders

  /** What happened to one request, in order. */
  datatype Event =
    | Called(call: Dispatch)
    | Sent(resp: Response)

  /** A request answered on a connection that stayed open: its bytes, and its events. */
  datatype Exchange = Exchange(wire: bytes, log: seq<Event>)

  /**
    `eaten` holds the bytes of the current request already delivered and dropped, `buf`
    what is buffered behind them, and `log` what the current request has seen so far.
  */
  datatype Sys = Sys(conn: Conn, past: seq<Exchange>, eaten: bytes, buf: bytes, log: seq<Event>, open: bool)

  /** The limits a deployment fixes. */
  datatype Limits = Limits(cfg: Config, streamCap: Option<nat>, reactorCap: nat)

  datatype Action =
    | Arrive(bs: bytes)
    | Pump(env: Env)
    | Complete(env: Env)
    | Abandon

  function Start(lim: Limits): Sys {
    Sys(Conn(AtHead, lim.streamCap, None), [], [], [], [], true)
  }

  predicate Closes(resp: Response) {
    resp.ReplyClose? || resp.Close? || resp == ReplyVectored(true)
  }

  /** A reply that answers the request and keeps the connection. */
  predicate KeepsOpen(resp: Response) {
    resp == Reply(Answer) || resp == ReplyVectored(false)
  }

  function Events(calls: seq<Dispatch>): seq<Event> {
    if calls == [] then [] else [Called(calls[0])] + Events(calls[1..])
  }

  /** The request's log so far is `log`; what becomes of the connection when `resp` is sent. */
  function Conclude(past: seq<Exchange>, conn: Conn, eaten: bytes, buf: bytes, log: seq<Event>, resp: Response): Sys {
    var full := log + [Sent(resp)];
    if Closes(resp) then Sys(conn, past, eaten, buf, full, false)
    else if KeepsOpen(resp) then Sys(conn, past + [Exchange(eaten, full)], [], buf, [], true)
    else Sys(conn, past, eaten, buf, full, true)
  }

  /** Record what a delivery of the next `n` buffered bytes did. */
  function Record(sys: Sys, n: nat, r: Result): Sys
    requires n <= |sys.buf|
  {
    Conclude(sys.past, r.conn, sys.eaten + sys.buf[..n], sys.buf[n..], sys.log + Events(r.calls), r.resp)
  }

  /** The pump: frame what is buffered and deliver a message once all of it is there. */
  function PumpOnce(tok: Tokenizer, lim: Limits, sys: Sys, env: Env): Sys {
    if sys.conn.phase.Parked? then sys else Deliver(tok, lim, sys, F.Frame(tok, sys.conn, sys.buf, lim.cfg), env)
  }

  /** What the pump makes of a framing verdict. */
  function Deliver(tok: Tokenizer, lim: Limits, sys: Sys, f: F.Framed, env: Env): Sys {
    match f.framing
    case More => sys.(conn := f.conn)
    case MoreInMessage => sys.(conn := f.conn)
    case Complete(h, b) =>
      if h + b == 0 || h + b > lim.reactorCap then sys.(conn := f.conn, open := false)
      else if h + b > |sys.buf| then sys.(conn := f.conn)
      else Record(sys, h + b, Step(tok, f.conn, sys.buf[..h], sys.buf[h..h + b], env))
  }

  /** A worker resolves the park, in a way its handle allows. */
  function Resolve(tok: Tokenizer, sys: Sys, env: Env): Sys {
    if !sys.conn.phase.Parked? || (env.outcome.Redrive? && sys.conn.phase.req.kind == Streaming)
       || (env.outcome.Resume? && sys.conn.phase.req.kind == Retained)
    then sys
    else Record(sys, 0, Step(tok, sys.conn, [], [], env))
  }

  function Act(tok: Tokenizer, lim: Limits, sys: Sys, a: Action): Sys {
    if !sys.open then sys
    else
      match a
      case Arrive(bs) => sys.(buf := sys.buf + bs)
      case Pump(env) => PumpOnce(tok, lim, sys, env)
      case Complete(env) => Resolve(tok, sys, env)
      case Abandon => if sys.conn.phase.Parked? then sys.(open := false) else sys
  }

  function Exec(tok: Tokenizer, lim: Limits, sys: Sys, actions: seq<Action>): Sys
    decreases |actions|
  {
    if actions == [] then sys else Exec(tok, lim, Act(tok, lim, sys, actions[0]), actions[1..])
  }

  lemma {:induction false} ExecTwo(tok: Tokenizer, lim: Limits, sys: Sys, a: Action, b: Action)
    ensures Exec(tok, lim, sys, [a, b]) == Act(tok, lim, Act(tok, lim, sys, a), b)
  {
    hide Act;
    assert [a, b][1..] == [b] && [b][1..] == [];
    var next := Act(tok, lim, sys, a);
    assert Exec(tok, lim, Act(tok, lim, next, b), []) == Act(tok, lim, next, b);
    assert Exec(tok, lim, next, [b]) == Act(tok, lim, next, b);
  }

  // ----- what a log must look like

  function LastCall(log: seq<Event>): Option<Dispatch> {
    if log == [] then None
    else
      match log[|log| - 1]
      case Called(call) => Some(call)
      case Sent(_) => LastCall(log[..|log| - 1])
  }

  /** The payload handed over in windows, each counted once however often it was redriven. */
  function Windows(log: seq<Event>): bytes {
    if log == [] then []
    else
      Windows(log[..|log| - 1]) +
      (match log[|log| - 1]
       case Called(call) => if call.stage == Window && !call.redriven then call.body else []
       case Sent(_) => [])
  }

  function Interims(log: seq<Event>): nat {
    if log == [] then 0
    else Interims(log[..|log| - 1]) + if log[|log| - 1] == Sent(Reply(Interim)) then 1 else 0
  }

  /** Whether the request has been answered, or given up on. */
  predicate Over(log: seq<Event>) {
    log != [] && log[|log| - 1].Sent? && (Closes(log[|log| - 1].resp) || KeepsOpen(log[|log| - 1].resp))
  }

  predicate ShapeOk(call: Dispatch) {
    match call.stage
    case Whole => true
    case Open => call.body == [] && call.trailers == []
    case Window => 0 < |call.body| <= 0x2_0000 && call.trailers == []
    case End => call.body == []
  }

  predicate NextStage(p: Stage, s: Stage) {
    (p == Open || p == Window) && (s == Window || s == End)
  }

  /** Whether `call` may follow the calls in `log`: the stages in order, a redrive repeating the call it redrives. */
  predicate CallOk(log: seq<Event>, call: Dispatch) {
    && ShapeOk(call)
    && match LastCall(log)
       case None => !call.redriven && (call.stage == Whole || call.stage == Open)
       case Some(p) =>
         if call.redriven then call == p.(redriven := true)
         else NextStage(p.stage, call.stage) && call.head == p.head && call.view == p.view
  }

  /**
    Whether `resp` may be sent after `log`: one interim at most, before any window; and no answer owns up to
    a codec bug.
  */
  predicate RespOk(log: seq<Event>, resp: Response) {
    && (resp == Reply(Interim) ==> Interims(log) == 0 && (LastCall(log).Some? ==> LastCall(log).value.stage == Open))
    && (resp.ReplyClose? && resp.what.Farewell? ==> resp.what.status != BUG)
  }

  predicate Legal(log: seq<Event>) {
    log == [] ||
    var front := log[..|log| - 1];
    && Legal(front)
    && !Over(front)
    && match log[|log| - 1]
       case Called(call) => CallOk(front, call)
       case Sent(resp) => RespOk(front, resp)
  }

  lemma {:induction false} PushCall(log: seq<Event>, call: Dispatch)
    requires Legal(log) && !Over(log) && CallOk(log, call)
    ensures var l := log + [Called(call)];
            && Legal(l) && !Over(l)
            && LastCall(l) == Some(call)
            && Windows(l) == Windows(log) + (if call.stage == Window && !call.redriven then call.body else [])
            && Interims(l) == Interims(log)
  {
    hide CallOk;
    var l := log + [Called(call)];
    assert l[..|l| - 1] == log;
  }

  lemma {:induction false} PushSent(log: seq<Event>, resp: Response)
    requires Legal(log) && !Over(log) && RespOk(log, resp)
    ensures var l := log + [Sent(resp)];
            && Legal(l)
            && (Over(l) <==> Closes(resp) || KeepsOpen(resp))
            && LastCall(l) == LastCall(log)
            && Windows(l) == Windows(log)
            && Interims(l) == Interims(log) + if resp == Reply(Interim) then 1 else 0
  {
    hide RespOk, Legal, Over, LastCall, Windows, Interims, Closes, KeepsOpen;
    LastStays(log, resp);
    SentCounts(log, resp);
    SentLegal(log, resp);
  }

  lemma {:induction false} SentCounts(log: seq<Event>, resp: Response)
    ensures var l := log + [Sent(resp)];
            Windows(l) == Windows(log) && Interims(l) == Interims(log) + if resp == Reply(Interim) then 1 else 0
  {
    var l := log + [Sent(resp)];
    assert l[..|l| - 1] == log && l[|l| - 1] == Sent(resp);
    Empties(Windows(log));
  }

  lemma {:induction false} SentLegal(log: seq<Event>, resp: Response)
    requires Legal(log) && !Over(log) && RespOk(log, resp)
    ensures var l := log + [Sent(resp)]; Legal(l) && (Over(l) <==> Closes(resp) || KeepsOpen(resp))
  {
    hide RespOk, CallOk, Closes, KeepsOpen;
    var l := log + [Sent(resp)];
    assert l[..|l| - 1] == log && l[|l| - 1] == Sent(resp);
  }

  lemma {:induction false} LastOfEvents(log: seq<Event>, calls: seq<Dispatch>)
    requires calls != []
    ensures LastCall(log + Events(calls)) == Some(calls[|calls| - 1])
    decreases |calls|
  {
    var d, rest := calls[0], calls[1..];
    AppendAppend(log, [Called(d)], Events(rest));
    if rest == [] {
      assert Events(rest) == [];
      Empties(log + [Called(d)]);
    } else {
      LastOfEvents(log + [Called(d)], rest);
    }
  }

  lemma {:induction false} LastStays(log: seq<Event>, resp: Response)
    ensures LastCall(log + [Sent(resp)]) == LastCall(log)
  {
    var l := log + [Sent(resp)];
    assert l[..|l| - 1] == log;
  }

  // ----- what a request is

  /** The head of the request at the front of `wire`, and how its parts read. */
  ghost predicate HasHead(tok: Tokenizer, lim: Limits, wire: bytes, f: Facts) {
    && tok.parse(wire) == Parsed(f)
    && f.len <= |wire| && f.len <= lim.cfg.maxHead
    && Fits(f.parts, f.len)
    && f.body.BodyOk?
  }

  function TrueView(wire: bytes, f: Facts): View
    requires f.len <= |wire| && Fits(f.parts, f.len)
  {
    seq(|f.parts|, i requires 0 <= i < |f.parts| => wire[f.parts[i].at..f.parts[i].at + f.parts[i].len])
  }

  /** Exactly one body of this kind, and nothing after it. */
  predicate IsBody(kind: BodyKind, body: bytes) {
    match kind
    case Sized(n) => |body| == n
    case ChunkFramed => R.Decode(body).Some?
  }

  function Content(kind: BodyKind, body: bytes): R.Decoded
    requires IsBody(kind, body)
  {
    match kind
    case Sized(_) => R.Decoded(body, [])
    case ChunkFramed => R.Decode(body).value
  }

  /** `wire` is one whole request as the grammar delimits it: a head and exactly its body. */
  ghost predicate IsRequest(tok: Tokenizer, lim: Limits, wire: bytes, f: Facts) {
    HasHead(tok, lim, wire, f) && IsBody(f.body.kind, wire[f.len..])
  }

  /** Every call so far was given this request's head, read as this request's head. */
  ghost predicate CallsRead(log: seq<Event>, head: bytes, view: View) {
    LastCall(log).Some? ==> LastCall(log).value.head == head && LastCall(log).value.view == view
  }

  /** A payload size the stream cap admits; the cap's counter saturates, so only a cap below the top binds. */
  predicate Capped(lim: Limits, n: nat) {
    lim.streamCap.Some? && (lim.streamCap.value < USIZE_MAX ==> n <= lim.streamCap.value)
  }

  /** Nothing past the configured limits was handed over. */
  ghost predicate Measured(lim: Limits, log: seq<Event>) {
    LastCall(log).Some? ==>
      if LastCall(log).value.stage == Whole then |LastCall(log).value.body| <= lim.cfg.maxBody
      else Capped(lim, |Windows(log)|)
  }

  /** The buffer a deployment needs: a head with the largest body and its framing, or with a window and its framing. */
  function BufferNeeded(cfg: Config): nat {
    Min(cfg.maxHead + (if cfg.maxBody + 16 * 1024 + 1025 >= 128 * 1024 + 260 then cfg.maxBody + 16 * 1024 + 1025
                       else 128 * 1024 + 260), USIZE_MAX)
  }

  /** That is the figure the library publishes. */
  lemma {:induction false} PublishedBuffer(cfg: Config)
    ensures F.MinRequestBytes(cfg) == BufferNeeded(cfg)
  {
  }

  /** Whether a body is handed over in windows: it streams, and is chunked or larger than one window of 128 KiB. */
  predicate Windowed(lim: Limits, kind: BodyKind) {
    lim.streamCap.Some? && (kind.ChunkFramed? || kind.len > 0x2_0000)
  }

  /** Whether the client waits to be told to go on: it says so, and there is a body to send. */
  predicate Awaits(f: Facts, kind: BodyKind) {
    f.expects && kind != Sized(0)
  }

  /** The request was served in full: the handler saw all of its content, and the interim went out exactly when due. */
  ghost predicate Served(tok: Tokenizer, lim: Limits, wire: bytes, log: seq<Event>, f: Facts) {
    && IsRequest(tok, lim, wire, f)
    && Legal(log) && LastCall(log).Some?
    && CallsRead(log, wire[..f.len], TrueView(wire, f)) && Measured(lim, log)
    && var kind, last := f.body.kind, LastCall(log).value;
       var content := Content(kind, wire[f.len..]);
       if Windowed(lim, kind) then
         && last.stage == End
         && Windows(log) == content.entity && last.trailers == content.trailers
         && Interims(log) == if Awaits(f, kind) then 1 else 0
       else
         && last.stage == Whole
         && last.body == content.entity && last.trailers == content.trailers
         && Interims(log) == if Awaits(f, kind) then 1 else 0
  }

  ghost predicate ServedExchange(tok: Tokenizer, lim: Limits, e: Exchange) {
    Over(e.log) && exists f :: Served(tok, lim, e.wire, e.log, f)
  }
}
