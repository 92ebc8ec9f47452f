/** Parked requests, every action, and what holds of every run. */
module ConnectionSafety {
  import opened Bytes
  import opened HttpTypes
  import opened Glue
  import opened Connection
  import opened ConnectionInvariant
  import opened ConnectionSteps
  import opened ConnectionStreams
  import F = Framer
  import C = Chunked
  import R = ChunkedReaders

  // ----- parked requests

  /** A parked request on an open connection. */
  ghost predicate ParkedAt(tok: Tokenizer, lim: Limits, sys: Sys, f: Facts) {
    && Sound(tok) && Inv(tok, lim, sys) && sys.open && sys.conn.phase.Parked?
    && Mid(tok, lim, sys.conn, sys.eaten + sys.buf, sys.log, f)
    && PhaseOk(tok, lim, sys.conn.phase, sys.eaten, sys.eaten + sys.buf, sys.log, f)
  }

  lemma {:induction false} RecordNone(sys: Sys, r: Result)
    ensures Record(sys, 0, r) == Conclude(sys.past, r.conn, sys.eaten, sys.buf, sys.log + Events(r.calls), r.resp)
  {
    hide Conclude;
    assert sys.buf[..0] == [] && sys.buf[0..] == sys.buf;
    Empties(sys.eaten);
  }

  lemma {:induction false} StepParked(tok: Tokenizer, conn: Conn, header: bytes, body: bytes, env: Env)
    requires conn.phase.Parked?
    ensures Step(tok, conn, header, body, env) ==
            ParkedStep(tok, conn.(phase := AtHead), conn.phase.req, conn.phase.resume, env)
  {
    hide ParkedStep;
  }

  /** The call a redrive repeats. */
  lemma {:induction false} RedriveOk(log: seq<Event>, req: ParkedRequest, head: bytes, view: View, d: Dispatch)
    requires Legal(log) && Holds(req, log, head) && req.kind == Retained && CallsRead(log, head, view)
    requires d == Dispatch(req.stage, req.head, view, req.body, req.trailers, true)
    ensures CallOk(log, d)
  {
    LastCallShape(log);
    hide LastCall, Legal;
  }

  lemma {:induction false} LastCallShape(log: seq<Event>)
    requires Legal(log)
    ensures LastCall(log).Some? ==> ShapeOk(LastCall(log).value)
  {
    if log != [] && log[|log| - 1].Sent? {
      LastCallShape(log[..|log| - 1]);
    }
  }

  /** Repeating the last call changes nothing the request has been given. */
  lemma {:induction false} RedriveKeeps(log: seq<Event>, d: Dispatch)
    requires Legal(log) && !Over(log) && CallOk(log, d) && d.redriven
    ensures var log1 := log + [Called(d)];
            && Legal(log1) && !Over(log1) && Windows(log1) == Windows(log) && Interims(log1) == Interims(log)
            && LastCall(log1) == Some(d) && LastCall(log).Some?
            && d == LastCall(log).value.(redriven := true)
  {
    PushCall(log, d);
    hide LastCall, Windows, Interims, Legal;
    Empties(Windows(log));
  }

  lemma {:induction false} RedriveServes(tok: Tokenizer, lim: Limits, wire: bytes, log: seq<Event>, f: Facts,
                                         d: Dispatch)
    requires Served(tok, lim, wire, log, f) && !Over(log) && CallOk(log, d) && d.redriven
    ensures Served(tok, lim, wire, log + [Called(d)], f)
  {
    hide LastCall, Windows, Interims, Legal, CallOk, IsRequest, Content, TrueView;
    RedriveKeeps(log, d);
  }

  /** A whole request, or the End of a stream, is answered by its worker. */
  lemma {:induction false} ResolveFinal(tok: Tokenizer, lim: Limits, sys: Sys, f: Facts, env: Env)
    requires ParkedAt(tok, lim, sys, f) && sys.conn.phase.resume.None?
    requires env.outcome.Redrive? ==> sys.conn.phase.req.kind == Retained
    ensures var r := ParkedStep(tok, sys.conn.(phase := AtHead), sys.conn.phase.req, None, env);
            Inv(tok, lim, Conclude(sys.past, r.conn, sys.eaten, sys.buf, sys.log + Events(r.calls), r.resp))
  {
    hide Inv, Legal, LastCall, Windows, Interims, Traced, PastOk, Over, TrueView, Measured, Served, Conclude, HeadView,
         Negotiate;
    SameCap(tok, lim, sys);
    var conn, req := sys.conn.(phase := AtHead), sys.conn.phase.req;
    ViewFound(tok, lim, conn, sys.eaten + sys.buf, f);
    Empties(sys.log);
    match env.outcome
    case Resume =>
      ClosedPlain(tok, lim, sys, conn, Close);
    case Answered(wantsClose, hasBody) =>
      AnsweredFinal(tok, lim, sys, conn, f, wantsClose, hasBody, env.drainingAfter);
    case Redrive =>
      RedriveFinal(tok, lim, sys, f, env);
  }

  lemma {:induction false} ClosedPlain(tok: Tokenizer, lim: Limits, sys: Sys, conn: Conn, resp: Response)
    requires Inv(tok, lim, sys) && sys.open && conn.streamCap == lim.streamCap
    requires Closes(resp) && (resp.ReplyClose? ==> !resp.what.Farewell?)
    ensures Inv(tok, lim, Conclude(sys.past, conn, sys.eaten, sys.buf, sys.log, resp))
  {
    hide Legal, Traced, PastOk, Waiting, Conclude, Over, Interims, LastCall;
    ConcludeClosed(tok, lim, sys.past, conn, sys.eaten, sys.buf, sys.log, resp);
  }

  lemma {:induction false} AnsweredFinal(tok: Tokenizer, lim: Limits, sys: Sys, conn: Conn, f: Facts, wantsClose: bool,
                                         hasBody: bool, draining: bool)
    requires Inv(tok, lim, sys) && sys.open && conn.streamCap == lim.streamCap && conn.phase == AtHead
    requires HasHead(tok, lim, sys.eaten + sys.buf, f) && Served(tok, lim, sys.eaten, sys.log, f)
    ensures var resp := Negotiate(tok, TrueView(sys.eaten + sys.buf, f), wantsClose, hasBody, draining, false);
            Inv(tok, lim, Conclude(sys.past, conn, sys.eaten, sys.buf, sys.log, resp))
  {
    hide Inv, Legal, Traced, PastOk, Waiting, Conclude, Over, Served, TrueView;
    SameCap(tok, lim, sys);
    var resp := Negotiate(tok, TrueView(sys.eaten + sys.buf, f), wantsClose, hasBody, draining, false);
    if Closes(resp) {
      ClosedPlain(tok, lim, sys, conn, resp);
    } else {
      ConcludeKept(tok, lim, sys.past, conn, sys.eaten, sys.buf, sys.log, resp, f);
    }
  }

  lemma {:induction false} RedriveFinal(tok: Tokenizer, lim: Limits, sys: Sys, f: Facts, env: Env)
    requires ParkedAt(tok, lim, sys, f) && sys.conn.phase.resume.None? && env.outcome.Redrive?
    requires sys.conn.phase.req.kind == Retained
    ensures var r := ParkedStep(tok, sys.conn.(phase := AtHead), sys.conn.phase.req, None, env);
            Inv(tok, lim, Conclude(sys.past, r.conn, sys.eaten, sys.buf, sys.log + Events(r.calls), r.resp))
  {
    hide Inv, Legal, LastCall, Windows, Interims, Traced, PastOk, Over, TrueView, Measured, Served, Conclude, HeadView,
         Negotiate, CallOk, Events;
    SameCap(tok, lim, sys);
    var conn, req, wire := sys.conn.(phase := AtHead), sys.conn.phase.req, sys.eaten + sys.buf;
    ViewFound(tok, lim, conn, wire, f);
    var d := Dispatch(req.stage, req.head, TrueView(wire, f), req.body, req.trailers, true);
    RedriveOk(sys.log, req, req.head, d.view, d);
    RedriveKeeps(sys.log, d);
    RedriveServes(tok, lim, sys.eaten, sys.log, f, d);
    ServedMeasured(tok, lim, sys.eaten, sys.log + [Called(d)], f);
    EventsOfOne(d);
    SettleFinal(tok, lim, sys.past, conn, sys.eaten, sys.buf, sys.log + [Called(d)], f, d, env.first,
                env.drainingAfter);
  }

  /** A stream picks up where it was parked, or its refusal is final. */
  lemma {:induction false} ResolveStream(tok: Tokenizer, lim: Limits, sys: Sys, f: Facts, env: Env)
    requires ParkedAt(tok, lim, sys, f) && sys.conn.phase.resume.Some?
    requires env.outcome.Redrive? ==> sys.conn.phase.req.kind == Retained
    ensures var r := ParkedStep(tok, sys.conn.(phase := AtHead), sys.conn.phase.req, sys.conn.phase.resume, env);
            Inv(tok, lim, Conclude(sys.past, r.conn, sys.eaten, sys.buf, sys.log + Events(r.calls), r.resp))
  {
    hide Inv, Legal, LastCall, Windows, Interims, Traced, PastOk, Over, TrueView, Measured, Served, Conclude, HeadView,
         StreamAt, OwesEnd, EndCall, Call;
    SameCap(tok, lim, sys);
    var conn, req, park := sys.conn.(phase := AtHead), sys.conn.phase.req, sys.conn.phase.resume.value;
    ViewFound(tok, lim, conn, sys.eaten + sys.buf, f);
    Empties(sys.log);
    match env.outcome
    case Resume =>
      ResumeStream(tok, lim, sys, f, env);
    case Answered(wantsClose, hasBody) =>
      var resp := ForceFinal(Negotiate(tok, TrueView(sys.eaten + sys.buf, f), wantsClose, hasBody, env.drainingAfter,
                                       true));
      ClosedPlain(tok, lim, sys, conn, resp);
    case Redrive =>
      RedriveStream(tok, lim, sys, f, env);
  }

  lemma {:induction false} ResumeStream(tok: Tokenizer, lim: Limits, sys: Sys, f: Facts, env: Env)
    requires ParkedAt(tok, lim, sys, f) && sys.conn.phase.resume.Some? && env.outcome.Resume?
    ensures var r := ParkedStep(tok, sys.conn.(phase := AtHead), sys.conn.phase.req, sys.conn.phase.resume, env);
            Inv(tok, lim, Conclude(sys.past, r.conn, sys.eaten, sys.buf, sys.log + Events(r.calls), r.resp))
  {
    hide Inv, Legal, LastCall, Windows, Interims, Traced, PastOk, Over, TrueView, Measured, Conclude, EndCall;
    SameCap(tok, lim, sys);
    var conn, req, park := sys.conn.(phase := AtHead), sys.conn.phase.req, sys.conn.phase.resume.value;
    var last := LastCall(sys.log).value;
    if park.next.StreamDone? {
      Owed(lim, sys.eaten, sys.log, f, park.next);
      EndCalled(tok, lim, sys.past, conn, sys.eaten, sys.buf, sys.log, f, [], env.first, env.drainingAfter);
    } else {
      Empties(sys.log);
      hide StreamAt;
      ReadOn(tok, lim, sys.past, conn, sys.eaten, sys.buf, sys.log, f, park.next, park.expectInterim, last);
    }
  }

  /** A stream that owes only its End has handed over exactly the declared body. */
  lemma {:induction false} Owed(lim: Limits, eaten: bytes, log: seq<Event>, f: Facts, phase: Phase)
    requires f.body.BodyOk? && OwesEnd(lim, eaten, log, f, phase)
    ensures f.len <= |eaten| && IsBody(f.body.kind, eaten[f.len..])
    ensures Content(f.body.kind, eaten[f.len..]) == R.Decoded(Windows(log), [])
  {
    hide Windows, LastCall;
  }

  lemma {:induction false} StreamAtRedriven(lim: Limits, eaten: bytes, wire: bytes, log: seq<Event>, f: Facts,
                                            next: Phase, d: Dispatch)
    requires f.len <= |wire| && f.body.BodyOk?
    requires Legal(log) && !Over(log) && CallOk(log, d) && d.redriven
    requires StreamAt(lim, eaten, wire, log, f, next) || OwesEnd(lim, eaten, log, f, next)
    ensures next.StreamDone? <==> OwesEnd(lim, eaten, log + [Called(d)], f, next)
    ensures !next.StreamDone? <==> StreamAt(lim, eaten, wire, log + [Called(d)], f, next)
  {
    hide Legal, LastCall, Windows, Interims, CallOk, Over;
    RedriveKeeps(log, d);
  }

  lemma {:induction false} RedriveStream(tok: Tokenizer, lim: Limits, sys: Sys, f: Facts, env: Env)
    requires ParkedAt(tok, lim, sys, f) && sys.conn.phase.resume.Some? && env.outcome.Redrive?
    requires sys.conn.phase.req.kind == Retained
    ensures var r := ParkedStep(tok, sys.conn.(phase := AtHead), sys.conn.phase.req, sys.conn.phase.resume, env);
            Inv(tok, lim, Conclude(sys.past, r.conn, sys.eaten, sys.buf, sys.log + Events(r.calls), r.resp))
  {
    hide Inv, Legal, LastCall, Windows, Interims, Traced, PastOk, Over, TrueView, Measured, Conclude, EndCall, Call,
         CallOk, Events, StreamAt, OwesEnd, ParkedStep, HeadView;
    SameCap(tok, lim, sys);
    var conn, req, park := sys.conn.(phase := AtHead), sys.conn.phase.req, sys.conn.phase.resume.value;
    var wire := sys.eaten + sys.buf;
    ViewFound(tok, lim, conn, wire, f);
    var d := Dispatch(req.stage, req.head, TrueView(wire, f), req.body, req.trailers, true);
    RedriveOk(sys.log, req, req.head, d.view, d);
    StreamAtRedriven(lim, sys.eaten, wire, sys.log, f, park.next, d);
    if env.first.Continue? && park.next.StreamDone? {
      RedriveEnds(tok, lim, sys, conn, f, d, park, env);
    } else {
      RedriveSettles(tok, conn, req, park, d, env);
      StreamCall(tok, lim, sys.past, conn, sys.eaten, sys.buf, sys.log, f, d, park.next, park.next, park.expectInterim,
                 env.first, env.drainingAfter);
    }
  }

  /** A redriven stream call settles as the first one did. */
  lemma {:induction false} RedriveSettles(tok: Tokenizer, conn: Conn, req: ParkedRequest, park: StreamPark, d: Dispatch,
                                          env: Env)
    requires HeadView(tok, conn.index, req.head) == Some(d.view) && env.outcome.Redrive?
    requires d == Dispatch(req.stage, req.head, d.view, req.body, req.trailers, true)
             && (d.stage == Open || d.stage == Window)
    requires !(env.first.Continue? && park.next.StreamDone?)
    ensures var c := Call(tok, conn, d.head, d.body, d.trailers, d.stage, d.redriven, env.first, env.drainingAfter);
            ParkedStep(tok, conn, req, Some(park), env) ==
            StreamSettle(conn, c.0, c.1, park.next, park.next, park.expectInterim)
  {
    hide HeadView, EndCall;
  }

  lemma {:induction false} RedriveEnds(tok: Tokenizer, lim: Limits, sys: Sys, conn: Conn, f: Facts, d: Dispatch,
                                       park: StreamPark, env: Env)
    requires ParkedAt(tok, lim, sys, f) && conn == sys.conn.(phase := AtHead) && sys.conn.phase.resume == Some(park)
    requires env.outcome.Redrive? && env.first.Continue? && park.next.StreamDone? && d.redriven && CallOk(sys.log, d)
    requires HeadView(tok, conn.index, d.head) == Some(d.view)
    requires d.head == (sys.eaten + sys.buf)[..f.len] && d.view == TrueView(sys.eaten + sys.buf, f)
    requires var req := sys.conn.phase.req; d == Dispatch(req.stage, req.head, d.view, req.body, req.trailers, true)
    requires OwesEnd(lim, sys.eaten, sys.log + [Called(d)], f, park.next)
    ensures var r := ParkedStep(tok, conn, sys.conn.phase.req, Some(park), env);
            Inv(tok, lim, Conclude(sys.past, r.conn, sys.eaten, sys.buf, sys.log + Events(r.calls), r.resp))
  {
    hide Inv, Legal, LastCall, Windows, Interims, Traced, PastOk, Over, TrueView, Measured, Conclude, EndCall, Call,
         CallOk, HeadView, Events;
    SameCap(tok, lim, sys);
    RedriveKeeps(sys.log, d);
    GoesOn(tok, conn, d, env.drainingAfter);
    Empties(Windows(sys.log + [Called(d)]));
    EndBehind(tok, lim, sys.past, conn, sys.eaten, sys.buf, sys.log, f, d, env.second, env.drainingAfter);
  }

  // ----- every action

  /** Bytes that arrive behind a request in progress change nothing about it. */
  lemma {:induction false} ArriveMid(tok: Tokenizer, lim: Limits, conn: Conn, wire: bytes, bs: bytes, log: seq<Event>,
                                     f: Facts)
    requires Sound(tok) && HasHead(tok, lim, wire, f)
    ensures HasHead(tok, lim, wire + bs, f) && TrueView(wire + bs, f) == TrueView(wire, f)
    ensures (wire + bs)[..f.len] == wire[..f.len]
  {
    TakeAppend(wire, bs, f.len);
    assert tok.parse(wire + bs) == tok.parse(wire);
    PartsAre(wire, f);
    PartsAre(wire + bs, f);
    hide Parts, TrueView;
  }

  lemma {:induction false} ArriveScan(region: bytes, bs: bytes, pos: ScanPos)
    requires exists k :: ScannedTo(region, k, pos)
    ensures exists k :: ScannedTo(region + bs, k, pos)
  {
    hide C.Run;
    var k :| ScannedTo(region, k, pos);
    TakeAppend(region, bs, k);
    assert ScannedTo(region + bs, k, pos);
  }

  lemma {:induction false} ArrivePhase(tok: Tokenizer, lim: Limits, phase: Phase, eaten: bytes, wire: bytes, bs: bytes,
                                       log: seq<Event>, f: Facts)
    requires f.len <= |wire| && f.body.BodyOk? && eaten <= wire
    requires PhaseOk(tok, lim, phase, eaten, wire, log, f)
    ensures eaten <= wire + bs && PhaseOk(tok, lim, phase, eaten, wire + bs, log, f)
  {
    hide LastCall, Interims, Windows, Served, KnownAt, ChunkedAt, ScannedTo;
    TakeAppend(wire, bs, f.len);
    DropAppend(wire, bs, f.len);
    if phase.ScanBody? {
      ArriveScan(wire[f.len..], bs, phase.scan);
    }
  }

  lemma {:induction false} ArriveKeeps(tok: Tokenizer, lim: Limits, sys: Sys, bs: bytes)
    requires Sound(tok) && Inv(tok, lim, sys) && sys.open
    ensures Inv(tok, lim, sys.(buf := sys.buf + bs))
  {
    hide PhaseOk, Legal, PastOk, LastCall, Over, TrueView, Measured, Given;
    var wire := sys.eaten + sys.buf;
    AppendAppend(sys.eaten, sys.buf, bs);
    if LastCall(sys.log).Some? {
      var f :| HasHead(tok, lim, wire, f) && CallsRead(sys.log, wire[..f.len],
                                                       TrueView(wire, f)) && Given(tok, lim, wire, sys.log, f);
      ArriveMid(tok, lim, sys.conn, wire, bs, sys.log, f);
      GivenGrows(tok, lim, wire, bs, sys.log, f);
    }
    if !sys.conn.phase.AtHead? {
      var f :| Mid(tok, lim, sys.conn, wire, sys.log, f)
               && PhaseOk(tok, lim, sys.conn.phase, sys.eaten, wire, sys.log, f);
      ArriveMid(tok, lim, sys.conn, wire, bs, sys.log, f);
      ArrivePhase(tok, lim, sys.conn.phase, sys.eaten, wire, bs, sys.log, f);
    }
  }

  lemma {:induction false} PumpKeeps(tok: Tokenizer, lim: Limits, sys: Sys, env: Env)
    requires Sound(tok) && Inv(tok, lim, sys) && sys.open
    ensures Inv(tok, lim, PumpOnce(tok, lim, sys, env))
  {
    hide Deliver, F.Frame, Legal, PastOk, Traced, Over, StreamAt, Interims, TrueView, CallsRead;
    var phase := sys.conn.phase;
    if phase.AtHead? {
      PumpHead(tok, lim, sys, env);
    } else {
      var f :| Mid(tok, lim, sys.conn, sys.eaten + sys.buf, sys.log, f)
               && PhaseOk(tok, lim, phase, sys.eaten, sys.eaten + sys.buf, sys.log, f);
      hide Inv;
      match phase
      case ExpectBody(_, _) => PumpExpect(tok, lim, sys, f, env);
      case ScanBody(_, _, _) => PumpScanning(tok, lim, sys, f, env);
      case StreamKnown(_, _) => PumpKnown(tok, lim, sys, f, env);
      case StreamBody(_, _, _, _) => PumpStream(tok, lim, sys, f, env);
      case Parked(_, _) =>
    }
  }

  lemma {:induction false} PumpScanning(tok: Tokenizer, lim: Limits, sys: Sys, f: Facts, env: Env)
    requires Sound(tok) && Inv(tok, lim, sys) && sys.open && sys.conn.phase.ScanBody?
    requires Mid(tok, lim, sys.conn, sys.eaten + sys.buf, sys.log, f)
    requires PhaseOk(tok, lim, sys.conn.phase, sys.eaten, sys.eaten + sys.buf, sys.log, f)
    ensures Inv(tok, lim, Deliver(tok, lim, sys, F.Frame(tok, sys.conn, sys.buf, lim.cfg), env))
  {
    SameCap(tok, lim, sys);
    hide Deliver, F.ScanStep, Inv, Mid, PhaseOk;
    PumpScan(tok, lim, sys, sys.conn, f, env);
  }

  lemma {:induction false} ResolveKeeps(tok: Tokenizer, lim: Limits, sys: Sys, env: Env)
    requires Sound(tok) && Inv(tok, lim, sys) && sys.open
    ensures Inv(tok, lim, Resolve(tok, sys, env))
  {
    hide Legal, PastOk, Traced, Over, PhaseOk, Step, Record, ParkedStep, Conclude, TrueView, CallsRead;
    var phase := sys.conn.phase;
    if phase.Parked? && !(env.outcome.Redrive? && phase.req.kind == Streaming)
       && !(env.outcome.Resume? && phase.req.kind == Retained) {
      var f :| Mid(tok, lim, sys.conn, sys.eaten + sys.buf, sys.log, f)
               && PhaseOk(tok, lim, phase, sys.eaten, sys.eaten + sys.buf, sys.log, f);
      hide Inv;
      StepParked(tok, sys.conn, [], [], env);
      RecordNone(sys, Step(tok, sys.conn, [], [], env));
      if phase.resume.None? {
        ResolveFinal(tok, lim, sys, f, env);
      } else {
        ResolveStream(tok, lim, sys, f, env);
      }
    }
  }

  lemma {:induction false} ActKeeps(tok: Tokenizer, lim: Limits, sys: Sys, a: Action)
    requires Sound(tok) && Inv(tok, lim, sys)
    ensures Inv(tok, lim, Act(tok, lim, sys, a))
  {
    if sys.open {
      match a
      case Arrive(bs) => ArriveKeeps(tok, lim, sys, bs);
      case Pump(env) => PumpKeeps(tok, lim, sys, env);
      case Complete(env) => ResolveKeeps(tok, lim, sys, env);
      case Abandon =>
        SameCap(tok, lim, sys);
        Shut(tok, lim, sys, sys.conn);
    }
  }

  lemma {:induction false} StartHolds(tok: Tokenizer, lim: Limits)
    ensures Inv(tok, lim, Start(lim))
  {
  }

  lemma {:induction false} RunKeeps(tok: Tokenizer, lim: Limits, sys: Sys, actions: seq<Action>)
    requires Sound(tok) && Inv(tok, lim, sys)
    ensures Inv(tok, lim, Exec(tok, lim, sys, actions))
    decreases |actions|
  {
    hide Act, Inv;
    if actions != [] {
      ActKeeps(tok, lim, sys, actions[0]);
      RunKeeps(tok, lim, Act(tok, lim, sys, actions[0]), actions[1..]);
    }
  }

  /**
    Over every run: each request answered on the open connection was one whole request
    of the byte stream, handed over in full, and the current one is legal so far.
  */
  lemma {:induction false} EveryRun(tok: Tokenizer, lim: Limits, actions: seq<Action>)
    requires Sound(tok)
    ensures Inv(tok, lim, Exec(tok, lim, Start(lim), actions))
  {
    StartHolds(tok, lim);
    RunKeeps(tok, lim, Start(lim), actions);
  }
}
