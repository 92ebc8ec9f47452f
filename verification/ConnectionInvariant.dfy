/** What every action of the connection keeps. */
module ConnectionInvariant {
  import opened Bytes
  import opened HttpTypes
  import opened Glue
  import opened Connection
  import F = Framer
  import C = Chunked

  /** The scan position reached over some prefix of the body region. */
  ghost predicate ScannedTo(body: bytes, k: nat, pos: ScanPos) {
    && k <= |body|
    && var r := C.Run(body[..k], C.INIT);
       r.verdict == C.More && pos == ScanPos(r.used, r.end)
  }

  /** The request in progress: its head is known, indexed, and what every call so far was given. */
  ghost predicate Mid(tok: Tokenizer, lim: Limits, conn: Conn, wire: bytes, log: seq<Event>, f: Facts) {
    && HasHead(tok, lim, wire, f)
    && conn.index == IndexOf(f)
    && CallsRead(log, wire[..f.len], TrueView(wire, f)) && Measured(lim, log)
  }

  /** A known-length stream has handed over everything eaten but the head, and `remaining` is what is left. */
  ghost predicate KnownAt(eaten: bytes, log: seq<Event>, f: Facts, remaining: nat) {
    && f.body == BodyOk(Sized(|Windows(log)| + remaining))
    && f.len <= |eaten| && eaten[f.len..] == Windows(log)
  }

  function StateAt(left: nat, afterPayload: bool): C.State {
    if left > 0 then C.Data(left) else if afterPayload then C.DataCrlf else C.Size
  }

  /**
    A chunked stream has handed over exactly the payload of the body bytes eaten, and stands where the
    scanner would.
  */
  ghost predicate ChunkedAt(eaten: bytes, log: seq<Event>, f: Facts, left: nat, afterPayload: bool, decoded: nat) {
    && f.body == BodyOk(ChunkFramed)
    && f.len <= |eaten|
    && (left > 0 ==> !afterPayload)
    && decoded == Min(|Windows(log)|, USIZE_MAX)
    && C.Run(eaten[f.len..], C.INIT) ==
       C.Outcome(C.More, |eaten| - f.len, C.Machine(|Windows(log)|, 0, StateAt(left, afterPayload)), Windows(log), [])
  }

  /** Where a stream stands between deliveries. */
  ghost predicate StreamAt(lim: Limits, eaten: bytes, wire: bytes, log: seq<Event>, f: Facts, phase: Phase)
    requires f.len <= |wire| && f.body.BodyOk?
  {
    && Windowed(lim, f.body.kind)
    && LastCall(log).Some? && (LastCall(log).value.stage == Open || LastCall(log).value.stage == Window)
    && match phase
       case StreamKnown(head, remaining) =>
         && head == wire[..f.len] && Capped(lim, |Windows(log)| + remaining)
         && remaining > 0 && KnownAt(eaten, log, f, remaining)
       case StreamBody(head, left, after, decoded) =>
         && head == wire[..f.len] && Capped(lim, |Windows(log)| + left)
         && ChunkedAt(eaten, log, f, left, after, decoded)
       case _ => false
  }

  /** Everything of a known-length body has been handed over; only the End is owed. */
  ghost predicate OwesEnd(lim: Limits, eaten: bytes, log: seq<Event>, f: Facts, phase: Phase)
    requires f.body.BodyOk?
  {
    && Windowed(lim, f.body.kind)
    && LastCall(log).Some? && LastCall(log).value.stage == Window
    && phase.StreamDone? && KnownAt(eaten, log, f, 0) && Capped(lim, |Windows(log)|)
  }

  function Due(f: Facts): nat {
    if f.expects then 1 else 0
  }

  /** The park holds the last call, so that a redrive can repeat it. */
  ghost predicate Holds(req: ParkedRequest, log: seq<Event>, head: bytes) {
    && req.head == head
    && LastCall(log).Some?
    && var last := LastCall(log).value;
       && req.stage == last.stage
       && (req.kind == Retained ==> req.body == last.body && req.trailers == last.trailers)
  }

  ghost predicate PhaseOk(tok: Tokenizer, lim: Limits, phase: Phase, eaten: bytes, wire: bytes, log: seq<Event>,
                          f: Facts)
    requires f.len <= |wire| && f.body.BodyOk? && eaten <= wire
  {
    var kind := f.body.kind;
    match phase
    case ExpectBody(head, k) =>
      && k == kind && eaten == head == wire[..f.len] && log == [Sent(Reply(Interim))]
      && Awaits(f, kind) && !Windowed(lim, kind) && (kind.Sized? ==> kind.len <= lim.cfg.maxBody)
    case ScanBody(stash, headLen, pos) =>
      && kind == ChunkFramed && lim.streamCap == None && F.OverCap(pos, lim.cfg) == None
      && (match stash
          case Some(h) => headLen == 0 && eaten == h == wire[..f.len] && log == [Sent(Reply(Interim))] && f.expects
          case None => headLen == f.len && eaten == [] && log == [] && !f.expects)
      && exists k :: ScannedTo(wire[f.len..], k, pos)
    case StreamKnown(_, _) => StreamAt(lim, eaten, wire, log, f, phase) && Interims(log) == Due(f)
    case StreamBody(_, _, _, _) => StreamAt(lim, eaten, wire, log, f, phase) && Interims(log) == Due(f)
    case Parked(req, None) =>
      && Holds(req, log, wire[..f.len])
      && (req.stage == Whole || req.stage == End)
      && Served(tok, lim, eaten, log, f)
    case Parked(req, Some(park)) =>
      && Holds(req, log, wire[..f.len])
      && (req.stage == Open || req.stage == Window)
      && (StreamAt(lim, eaten, wire, log, f, park.next) || OwesEnd(lim, eaten, log, f, park.next))
      && (if park.expectInterim then req.stage == Open && f.expects && Interims(log) == 0 else Interims(log) == Due(f))
    case _ => false
  }

  ghost predicate PastOk(tok: Tokenizer, lim: Limits, past: seq<Exchange>) {
    forall i :: 0 <= i < |past| ==> ServedExchange(tok, lim, past[i])
  }

  /** The payload carried by what has arrived of a body. */
  function Carried(kind: BodyKind, region: bytes): bytes {
    match kind
    case Sized(n) => region[..Min(n, |region|)]
    case ChunkFramed => C.Run(region, C.INIT).payload
  }

  /**
    What the handler was given is the request's: all of it once it was told so, and a prefix of its payload
    until then, with no window before the interim the client waits for.
  */
  ghost predicate Given(tok: Tokenizer, lim: Limits, wire: bytes, log: seq<Event>, f: Facts)
    requires f.len <= |wire| && f.body.BodyOk? && LastCall(log).Some?
  {
    var stage := LastCall(log).value.stage;
    if stage == Whole || stage == End then exists w :: w <= wire && Served(tok, lim, w, log, f)
    else Windows(log) <= Carried(f.body.kind, wire[f.len..]) && (stage == Window ==> Interims(log) == Due(f))
  }

  /** Whatever the handler was shown came from the request at the front of the unanswered bytes. */
  ghost predicate Traced(tok: Tokenizer, lim: Limits, wire: bytes, log: seq<Event>) {
    && Measured(lim, log)
    && (LastCall(log).Some? ==>
          exists f :: HasHead(tok, lim, wire, f) && CallsRead(log, wire[..f.len],
                                                              TrueView(wire, f)) && Given(tok, lim, wire, log, f))
  }

  ghost predicate Waiting(tok: Tokenizer, lim: Limits, conn: Conn, eaten: bytes, wire: bytes, log: seq<Event>)
    requires eaten <= wire
  {
    if conn.phase.AtHead? then eaten == [] && log == []
    else exists f :: Mid(tok, lim, conn, wire, log, f) && PhaseOk(tok, lim, conn.phase, eaten, wire, log, f)
  }

  ghost predicate Inv(tok: Tokenizer, lim: Limits, sys: Sys) {
    && sys.conn.streamCap == lim.streamCap
    && PastOk(tok, lim, sys.past)
    && Legal(sys.log)
    && Traced(tok, lim, sys.eaten + sys.buf, sys.log)
    && (sys.open ==> !Over(sys.log) && Waiting(tok, lim, sys.conn, sys.eaten, sys.eaten + sys.buf, sys.log))
  }

  // ----- what the handler was given

  lemma {:induction false} ServedPush(tok: Tokenizer, lim: Limits, wire: bytes, log: seq<Event>, f: Facts,
                                      resp: Response)
    requires Served(tok, lim, wire, log, f) && !Over(log) && RespOk(log, resp) && resp != Reply(Interim)
    ensures Served(tok, lim, wire, log + [Sent(resp)], f)
  {
    hide Legal, LastCall, Windows, Interims, IsRequest, Content, TrueView, RespOk;
    PushSent(log, resp);
  }

  /** Sending something gives the handler nothing. */
  lemma {:induction false} GivenPush(tok: Tokenizer, lim: Limits, wire: bytes, log: seq<Event>, f: Facts,
                                     resp: Response)
    requires Legal(log) && !Over(log) && RespOk(log, resp) && resp != Reply(Interim)
    requires f.len <= |wire| && f.body.BodyOk? && LastCall(log).Some? && Given(tok, lim, wire, log, f)
    ensures LastCall(log + [Sent(resp)]).Some? && Given(tok, lim, wire, log + [Sent(resp)], f)
  {
    hide Legal, LastCall, Windows, Interims, RespOk, Served, Carried, Over;
    PushSent(log, resp);
    var stage := LastCall(log).value.stage;
    if stage == Whole || stage == End {
      var w :| w <= wire && Served(tok, lim, w, log, f);
      ServedPush(tok, lim, w, log, f, resp);
    }
  }

  lemma {:induction false} ServedGiven(tok: Tokenizer, lim: Limits, eaten: bytes, wire: bytes, log: seq<Event>,
                                       f: Facts)
    requires f.len <= |wire| && f.body.BodyOk? && eaten <= wire && Served(tok, lim, eaten, log, f)
    ensures LastCall(log).Some? && Given(tok, lim, wire, log, f)
  {
    hide Legal, LastCall, Windows, Interims, IsRequest, Content, TrueView, Carried;
  }

  lemma {:induction false} CarriedGrows(kind: BodyKind, a: bytes, b: bytes)
    ensures Carried(kind, a) <= Carried(kind, a + b)
  {
    if kind.ChunkFramed? {
      hide C.Run;
      C.RunExtends(a, b, C.INIT);
    }
  }

  /** Where a stream stands, its windows are what the bytes so far carry. */
  lemma {:induction false} StreamGiven(tok: Tokenizer, lim: Limits, eaten: bytes, wire: bytes, log: seq<Event>,
                                       f: Facts, phase: Phase)
    requires f.len <= |wire| && f.body.BodyOk? && eaten <= wire
    requires StreamAt(lim, eaten, wire, log, f, phase) || OwesEnd(lim, eaten, log, f, phase)
    requires LastCall(log).value.stage == Window ==> Interims(log) == Due(f)
    ensures LastCall(log).Some? && Given(tok, lim, wire, log, f)
  {
    hide LastCall, Windows, C.Run;
    var rest := wire[|eaten|..];
    assert wire == eaten + rest;
    DropAppend(eaten, rest, f.len);
    CarriedGrows(f.body.kind, eaten[f.len..], rest);
  }

  lemma {:induction false} PhaseGiven(tok: Tokenizer, lim: Limits, phase: Phase, eaten: bytes, wire: bytes,
                                      log: seq<Event>, f: Facts)
    requires f.len <= |wire| && f.body.BodyOk? && eaten <= wire && PhaseOk(tok, lim, phase, eaten, wire, log, f)
    ensures LastCall(log).Some? ==> Given(tok, lim, wire, log, f)
  {
    assert LastCall([]).None?;
    if log == [Sent(Reply(Interim))] {
      assert log[..0] == [];
    }
    hide LastCall, Windows, Interims, Served, StreamAt, OwesEnd, Given, ScannedTo;
    match phase
    case ExpectBody(_, _) =>
    case ScanBody(_, _, _) =>
    case StreamKnown(_, _) => StreamGiven(tok, lim, eaten, wire, log, f, phase);
    case StreamBody(_, _, _, _) => StreamGiven(tok, lim, eaten, wire, log, f, phase);
    case Parked(_, None) => ServedGiven(tok, lim, eaten, wire, log, f);
    case Parked(_, Some(park)) => StreamGiven(tok, lim, eaten, wire, log, f, park.next);
  }

  lemma {:induction false} GivenGrows(tok: Tokenizer, lim: Limits, wire: bytes, bs: bytes, log: seq<Event>, f: Facts)
    requires f.len <= |wire| && f.body.BodyOk? && LastCall(log).Some? && Given(tok, lim, wire, log, f)
    ensures Given(tok, lim, wire + bs, log, f)
  {
    hide LastCall, Windows, Served, Carried;
    DropAppend(wire, bs, f.len);
    CarriedGrows(f.body.kind, wire[f.len..], bs);
  }

  // ----- recording a delivery

  lemma {:induction false} ConcludeClosed(tok: Tokenizer, lim: Limits, past: seq<Exchange>, conn: Conn, eaten: bytes,
                                          buf: bytes, log: seq<Event>, resp: Response)
    requires conn.streamCap == lim.streamCap && PastOk(tok, lim, past)
    requires Legal(log) && !Over(log) && RespOk(log, resp) && Closes(resp)
    requires Traced(tok, lim, eaten + buf, log)
    ensures Inv(tok, lim, Conclude(past, conn, eaten, buf, log, resp))
  {
    hide Legal, LastCall, Over, RespOk, TrueView, Given;
    PushSent(log, resp);
    if LastCall(log).Some? {
      var wire := eaten + buf;
      var f :| HasHead(tok, lim, wire, f) && CallsRead(log, wire[..f.len],
                                                       TrueView(wire, f)) && Given(tok, lim, wire, log, f);
      GivenPush(tok, lim, wire, log, f, resp);
    }
  }

  lemma {:induction false} ConcludeKept(tok: Tokenizer, lim: Limits, past: seq<Exchange>, conn: Conn, eaten: bytes,
                                        buf: bytes, log: seq<Event>, resp: Response, f: Facts)
    requires conn.streamCap == lim.streamCap && conn.phase == AtHead && PastOk(tok, lim, past)
    requires Legal(log) && !Over(log) && KeepsOpen(resp)
    requires Served(tok, lim, eaten, log, f)
    ensures Inv(tok, lim, Conclude(past, conn, eaten, buf, log, resp))
  {
    assert Legal([]) && LastCall([]).None?;
    hide Legal, LastCall, Windows, Interims, IsRequest, Content, TrueView;
    PushSent(log, resp);
    var full := log + [Sent(resp)];
    assert Served(tok, lim, eaten, full, f);
    assert ServedExchange(tok, lim, Exchange(eaten, full));
  }

  lemma {:induction false} ConcludeGoing(tok: Tokenizer, lim: Limits, past: seq<Exchange>, conn: Conn, eaten: bytes,
                                         buf: bytes, log: seq<Event>, resp: Response, f: Facts)
    requires conn.streamCap == lim.streamCap && PastOk(tok, lim, past)
    requires Legal(log) && !Over(log) && RespOk(log, resp) && !Closes(resp) && !KeepsOpen(resp)
    requires Mid(tok, lim, conn, eaten + buf, log, f) && !conn.phase.AtHead?
    requires PhaseOk(tok, lim, conn.phase, eaten, eaten + buf, log + [Sent(resp)], f)
    ensures Inv(tok, lim, Conclude(past, conn, eaten, buf, log, resp))
  {
    hide Legal, LastCall, Over, RespOk, TrueView, PhaseOk, Given;
    PushSent(log, resp);
    var full := log + [Sent(resp)];
    PhaseGiven(tok, lim, conn.phase, eaten, eaten + buf, full, f);
    assert Mid(tok, lim, conn, eaten + buf, full, f);
  }

  // ----- handler calls

  /** At every dispatch the head is read as its own tokenization reads it, whichever way the view is built. */
  lemma {:induction false} ViewFound(tok: Tokenizer, lim: Limits, conn: Conn, wire: bytes, f: Facts)
    requires Sound(tok) && HasHead(tok, lim, wire, f) && conn.index == IndexOf(f)
    ensures HeadView(tok, conn.index, wire[..f.len]) == Some(TrueView(wire, f))
  {
    assert ParseOk(tok, wire);
    PartsAre(wire, f);
    hide Parts, TrueView;
  }

  /** The parts of a head are slices of the bytes it came in. */
  lemma {:induction false} PartsAre(wire: bytes, f: Facts)
    requires f.len <= |wire| && Fits(f.parts, f.len)
    ensures Parts(wire[..f.len], f.parts) == TrueView(wire, f)
  {
    var head, view := wire[..f.len], TrueView(wire, f);
    forall i | 0 <= i < |f.parts|
      ensures Parts(head, f.parts)[i] == view[i]
    {
      var e := f.parts[i];
      assert head[e.at..e.at + e.len] == wire[e.at..e.at + e.len];
    }
  }

  lemma {:induction false} EventsOfOne(d: Dispatch)
    ensures Events([d]) == [Called(d)] && Events([]) == []
  {
    assert [d][1..] == [];
    assert Events([d][1..]) == [];
  }

  /** The delivery that completes a request: it is answered, parked, or the connection closes. */
  lemma {:induction false} FinalCall(tok: Tokenizer, lim: Limits, past: seq<Exchange>, conn: Conn, eaten: bytes,
                                     buf: bytes, log: seq<Event>, f: Facts, d: Dispatch, choice: Choice, draining: bool)
    requires Sound(tok) && conn.phase == AtHead && conn.streamCap == lim.streamCap && PastOk(tok, lim, past)
    requires Legal(log) && !Over(log)
    requires Mid(tok, lim, conn, eaten + buf, log, f)
    requires (d.stage == Whole || d.stage == End) && CallOk(log, d)
    requires d.head == (eaten + buf)[..f.len] && d.view == TrueView(eaten + buf, f) && !d.redriven
    requires Served(tok, lim, eaten, log + [Called(d)], f)
    ensures var r := CallWhole(tok, conn, d.head, d.body, d.trailers, d.stage, choice, draining);
            Inv(tok, lim, Conclude(past, r.conn, eaten, buf, log + Events(r.calls), r.resp))
  {
    hide Legal, LastCall, Windows, Interims, HasHead, TrueView, CallOk, Served, Conclude, Events, HeadView, Measured;
    ServedMeasured(tok, lim, eaten, log + [Called(d)], f);
    ViewFound(tok, lim, conn, eaten + buf, f);
    EventsOfOne(d);
    PushCall(log, d);
    SettleFinal(tok, lim, past, conn, eaten, buf, log + [Called(d)], f, d, choice, draining);
  }

  lemma {:induction false} ServedMeasured(tok: Tokenizer, lim: Limits, wire: bytes, log: seq<Event>, f: Facts)
    requires Served(tok, lim, wire, log, f)
    ensures Measured(lim, log)
  {
    hide Legal, LastCall, Windows, Interims, IsRequest, Content, TrueView, CallsRead, Measured;
  }

  lemma {:induction false} SettleFinal(tok: Tokenizer, lim: Limits, past: seq<Exchange>, conn: Conn, eaten: bytes,
                                       buf: bytes, log: seq<Event>, f: Facts, d: Dispatch, choice: Choice,
                                       draining: bool)
    requires conn.phase == AtHead && conn.streamCap == lim.streamCap && PastOk(tok, lim, past)
    requires Legal(log) && !Over(log)
    requires Mid(tok, lim, conn, eaten + buf, log, f)
    requires LastCall(log) == Some(d) && (d.stage == Whole || d.stage == End)
    requires Served(tok, lim, eaten, log, f)
    ensures var out := match choice
              case Respond(wantsClose, hasBody) =>
                Result(conn, Negotiate(tok, d.view, wantsClose, hasBody, draining, false), [])
              case Park(Retained) =>
                Result(conn.(phase := Parked(ParkedRequest(d.head, d.stage, d.body, d.trailers, Retained), None)),
                       Defer, [])
              case Park(Streaming) =>
                Result(conn.(phase := Parked(ParkedRequest(d.head, d.stage, [], [], Streaming), None)), Defer, [])
              case Continue => Result(conn, Close, []);
            Inv(tok, lim, Conclude(past, out.conn, eaten, buf, log, out.resp))
  {
    ServedGiven(tok, lim, eaten, eaten + buf, log, f);
    hide Given;
    match choice
    case Respond(wantsClose, hasBody) =>
      var resp := Negotiate(tok, d.view, wantsClose, hasBody, draining, false);
      if Closes(resp) {
        ConcludeClosed(tok, lim, past, conn, eaten, buf, log, resp);
      } else {
        ConcludeKept(tok, lim, past, conn, eaten, buf, log, resp, f);
      }
    case Continue =>
      ConcludeClosed(tok, lim, past, conn, eaten, buf, log, Close);
    case Park(kind) =>
      var req := if kind == Retained then ParkedRequest(d.head, d.stage, d.body, d.trailers, Retained)
                 else ParkedRequest(d.head, d.stage, [], [], Streaming);
      ParkFinal(tok, lim, conn, eaten, buf, log, f, d, req);
      ConcludeGoing(tok, lim, past, conn.(phase := Parked(req, None)), eaten, buf, log, Defer, f);
  }

  lemma {:induction false} ParkFinal(tok: Tokenizer, lim: Limits, conn: Conn, eaten: bytes, buf: bytes,
                                     log: seq<Event>, f: Facts, d: Dispatch, req: ParkedRequest)
    requires Legal(log) && !Over(log) && Mid(tok, lim, conn, eaten + buf, log, f)
    requires LastCall(log) == Some(d) && (d.stage == Whole || d.stage == End)
    requires Served(tok, lim, eaten, log, f)
    requires req.head == d.head && req.stage == d.stage
    requires req.kind == Retained ==> req.body == d.body && req.trailers == d.trailers
    ensures PhaseOk(tok, lim, Parked(req, None), eaten, eaten + buf, log + [Sent(Defer)], f)
    ensures RespOk(log, Defer)
  {
    hide Legal, LastCall, Windows, Interims, HasHead, TrueView, IsRequest, Content;
    PushSent(log, Defer);
  }

  ghost predicate InterimState(log: seq<Event>, stage: Stage, f: Facts, expects: bool) {
    if expects then stage == Open && f.expects && Interims(log) == 0 else Interims(log) == Due(f)
  }

  /** A streamed delivery: read on, refused for good, or parked to be resumed where it stands. */
  lemma {:induction false} StreamCall(tok: Tokenizer, lim: Limits, past: seq<Exchange>, conn: Conn, eaten: bytes,
                                      buf: bytes, log: seq<Event>, f: Facts, d: Dispatch, next: Phase, park: Phase,
                                      expects: bool, choice: Choice, draining: bool)
    requires Sound(tok) && conn.phase == AtHead && conn.streamCap == lim.streamCap && PastOk(tok, lim, past)
    requires Legal(log) && !Over(log)
    requires Mid(tok, lim, conn, eaten + buf, log, f)
    requires (d.stage == Open || d.stage == Window) && CallOk(log, d)
    requires d.head == (eaten + buf)[..f.len] && d.view == TrueView(eaten + buf, f)
    requires InterimState(log, d.stage, f, expects)
    requires choice.Continue? ==> StreamAt(lim, eaten, eaten + buf, log + [Called(d)], f, next)
    requires StreamAt(lim, eaten, eaten + buf, log + [Called(d)], f, park)
             || OwesEnd(lim, eaten, log + [Called(d)], f, park)
    ensures var c := Call(tok, conn, d.head, d.body, d.trailers, d.stage, d.redriven, choice, draining);
            var r := StreamSettle(conn, c.0, c.1, next, park, expects);
            Inv(tok, lim, Conclude(past, r.conn, eaten, buf, log + Events(r.calls), r.resp))
  {
    hide Legal, LastCall, Windows, Interims, TrueView, CallOk, Conclude, Events, HeadView, StreamAt, OwesEnd, Measured,
         Given, Inv, PastOk, Over;
    StreamMeasured(lim, eaten, eaten + buf, log + [Called(d)], f, park);
    ViewFound(tok, lim, conn, eaten + buf, f);
    EventsOfOne(d);
    PushCall(log, d);
    var log1 := log + [Called(d)];
    StreamGiven(tok, lim, eaten, eaten + buf, log1, f, park);
    match choice
    case Respond(wantsClose, hasBody) =>
      var resp := ForceFinal(Negotiate(tok, d.view, wantsClose, hasBody, draining, true));
      ConcludeClosed(tok, lim, past, conn, eaten, buf, log1, resp);
    case Continue =>
      ReadOn(tok, lim, past, conn, eaten, buf, log1, f, next, expects, d);
    case Park(kind) =>
      var req := if kind == Retained then ParkedRequest(d.head, d.stage, d.body, d.trailers, Retained)
                 else ParkedRequest(d.head, d.stage, [], [], Streaming);
      ParkStream(tok, lim, past, conn, eaten, buf, log1, f, d, req, StreamPark(park, expects));
  }

  lemma {:induction false} StreamMeasured(lim: Limits, eaten: bytes, wire: bytes, log: seq<Event>, f: Facts,
                                          phase: Phase)
    requires f.len <= |wire| && f.body.BodyOk?
    requires StreamAt(lim, eaten, wire, log, f, phase) || OwesEnd(lim, eaten, log, f, phase)
    ensures Measured(lim, log)
  {
    hide LastCall, Windows;
  }

  /** The stream moves on, releasing the interim if one is due. */
  lemma {:induction false} ReadOn(tok: Tokenizer, lim: Limits, past: seq<Exchange>, conn: Conn, eaten: bytes,
                                  buf: bytes, log: seq<Event>, f: Facts, next: Phase, expects: bool, d: Dispatch)
    requires conn.streamCap == lim.streamCap && PastOk(tok, lim, past)
    requires Legal(log) && !Over(log)
    requires Mid(tok, lim, conn, eaten + buf, log, f)
    requires LastCall(log) == Some(d) && InterimState(log, d.stage, f, expects)
    requires StreamAt(lim, eaten, eaten + buf, log, f, next)
    ensures Inv(tok, lim, Conclude(past, conn.(phase := next), eaten, buf, log, Invite(expects)))
  {
    var resp := Invite(expects);
    StreamAtKept(lim, eaten, eaten + buf, log, f, next, resp);
    hide Legal, LastCall, Windows, Interims, HasHead, TrueView, StreamAt, Conclude;
    PushSent(log, resp);
    ConcludeGoing(tok, lim, past, conn.(phase := next), eaten, buf, log, resp, f);
  }

  /** Sending something does not move the stream. */
  lemma {:induction false} StreamAtKept(lim: Limits, eaten: bytes, wire: bytes, log: seq<Event>, f: Facts, next: Phase,
                                        resp: Response)
    requires Legal(log) && !Over(log) && RespOk(log, resp)
    requires f.len <= |wire| && f.body.BodyOk?
    ensures StreamAt(lim, eaten, wire, log, f, next) ==>
              StreamAt(lim, eaten, wire, log + [Sent(resp)], f, next) && (next.StreamKnown? || next.StreamBody?)
    ensures OwesEnd(lim, eaten, log, f, next) ==> OwesEnd(lim, eaten, log + [Sent(resp)], f, next)
  {
    hide Legal, LastCall, Windows, Interims, RespOk;
    PushSent(log, resp);
  }

  lemma {:induction false} ParkStream(tok: Tokenizer, lim: Limits, past: seq<Exchange>, conn: Conn, eaten: bytes,
                                      buf: bytes, log: seq<Event>, f: Facts, d: Dispatch, req: ParkedRequest,
                                      park: StreamPark)
    requires conn.streamCap == lim.streamCap && PastOk(tok, lim, past)
    requires Legal(log) && !Over(log)
    requires Mid(tok, lim, conn, eaten + buf, log, f)
    requires LastCall(log) == Some(d) && (d.stage == Open || d.stage == Window)
             && InterimState(log, d.stage, f, park.expectInterim)
    requires StreamAt(lim, eaten, eaten + buf, log, f, park.next) || OwesEnd(lim, eaten, log, f, park.next)
    requires d.head == (eaten + buf)[..f.len] && req.head == d.head && req.stage == d.stage
    requires req.kind == Retained ==> req.body == d.body && req.trailers == d.trailers
    ensures Inv(tok, lim, Conclude(past, conn.(phase := Parked(req, Some(park))), eaten, buf, log, Defer))
  {
    StreamAtKept(lim, eaten, eaten + buf, log, f, park.next, Defer);
    hide Legal, LastCall, Windows, Interims, HasHead, TrueView, StreamAt, OwesEnd, Conclude;
    PushSent(log, Defer);
    ConcludeGoing(tok, lim, past, conn.(phase := Parked(req, Some(park))), eaten, buf, log, Defer, f);
  }
}
