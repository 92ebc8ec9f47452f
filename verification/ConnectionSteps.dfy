/** Every delivery keeps the invariant, phase by phase. */
module ConnectionSteps {
  import opened Bytes
  import opened HttpTypes
  import opened Glue
  import opened Connection
  import opened ConnectionInvariant
  import F = Framer
  import C = Chunked
  import R = ChunkedReaders

  lemma {:induction false} Shut(tok: Tokenizer, lim: Limits, sys: Sys, conn: Conn)
    requires Inv(tok, lim, sys) && conn.streamCap == lim.streamCap
    ensures Inv(tok, lim, sys.(conn := conn, open := false))
  {
    hide Legal, Traced, PastOk, Waiting;
  }

  /** Delivering moves bytes from behind the cursor to before it, and loses none. */
  lemma {:induction false} Cut(eaten: bytes, buf: bytes, n: nat)
    requires n <= |buf|
    ensures eaten + buf[..n] + buf[n..] == eaten + buf
  {
    AppendAppend(eaten, buf[..n], buf[n..]);
    assert buf[..n] + buf[n..] == buf;
  }

  /** A failed connection says farewell and closes. */
  lemma {:induction false} Failing(tok: Tokenizer, lim: Limits, sys: Sys, conn: Conn, framed: F.Framed, env: Env)
    requires Inv(tok, lim, sys) && sys.open && conn.streamCap == lim.streamCap && Fails(conn, sys.buf, framed)
    ensures Inv(tok, lim, Deliver(tok, lim, sys, framed, env))
  {
    hide Legal, Traced, PastOk, Waiting, Conclude, Over, Inv;
    if |sys.buf| == 0 || |sys.buf| > lim.reactorCap {
      Shut(tok, lim, sys, framed.conn);
    } else {
      Farewelled(tok, lim, sys, |sys.buf|, conn.(phase := AtHead), framed.conn.phase.status,
                 framed.conn.phase.headOnly);
    }
  }

  /** A failure verdict that does not own up to a codec bug. */
  ghost predicate Fails(conn: Conn, buf: bytes, framed: F.Framed) {
    && framed.conn.phase.Fail?
    && framed == F.FailWith(conn, buf, framed.conn.phase.status, framed.conn.phase.headOnly)
    && framed.conn.phase.status != BUG
  }

  lemma {:induction false} Farewelled(tok: Tokenizer, lim: Limits, sys: Sys, n: nat, conn: Conn, status: nat,
                                      headOnly: bool)
    requires Inv(tok, lim, sys) && sys.open && conn.streamCap == lim.streamCap && status != BUG && n <= |sys.buf|
    ensures Inv(tok, lim, Record(sys, n, Result(conn, SayFarewell(status, headOnly), [])))
  {
    hide Legal, Traced, PastOk, Waiting, Conclude, Over, Interims;
    Cut(sys.eaten, sys.buf, n);
    Empties(sys.log);
    ConcludeClosed(tok, lim, sys.past, conn, sys.eaten + sys.buf[..n], sys.buf[n..], sys.log,
                   SayFarewell(status, headOnly));
  }

  // ----- whole requests

  /** A head is read the same whatever follows it. */
  lemma {:induction false} HeadKept(tok: Tokenizer, lim: Limits, wire: bytes, rest: bytes, f: Facts)
    requires Sound(tok) && HasHead(tok, lim, wire, f)
    ensures HasHead(tok, lim, wire[..f.len] + rest, f) && TrueView(wire[..f.len] + rest, f) == TrueView(wire, f)
    ensures (wire[..f.len] + rest)[..f.len] == wire[..f.len] && (wire[..f.len] + rest)[f.len..] == rest
  {
    assert ParseOk(tok, wire);
    Halves(wire[..f.len], rest);
    PartsAre(wire, f);
    PartsAre(wire[..f.len] + rest, f);
    hide Parts, TrueView;
  }

  /** The call that hands over a whole request serves it. */
  lemma {:induction false} WholeServed(tok: Tokenizer, lim: Limits, wire: bytes, body: bytes, log: seq<Event>, f: Facts,
                                       d: Dispatch)
    requires Sound(tok) && HasHead(tok, lim, wire, f) && IsBody(f.body.kind, body)
    requires !Windowed(lim, f.body.kind) && |Content(f.body.kind, body).entity| <= lim.cfg.maxBody
    requires Legal(log) && !Over(log) && LastCall(log).None?
    requires Interims(log) == if Awaits(f, f.body.kind) then 1 else 0
    requires var c := Content(f.body.kind, body);
             d == Dispatch(Whole, wire[..f.len], TrueView(wire, f), c.entity, c.trailers, false)
    ensures CallOk(log, d)
    ensures Served(tok, lim, wire[..f.len] + body, log + [Called(d)], f)
  {
    hide Legal, LastCall, Interims, Windows, HasHead, IsBody, Content, TrueView;
    HeadKept(tok, lim, wire, body, f);
    PushCall(log, d);
  }

  lemma {:induction false} WholeDelivered(tok: Tokenizer, lim: Limits, past: seq<Exchange>, conn: Conn, eaten: bytes,
                                          buf: bytes, body: bytes, log: seq<Event>, f: Facts, choice: Choice,
                                          draining: bool)
    requires Sound(tok) && conn.phase == AtHead && conn.streamCap == lim.streamCap && PastOk(tok, lim, past)
    requires Mid(tok, lim, conn, eaten + buf, log, f) && eaten == (eaten + buf)[..f.len] + body
    requires IsBody(f.body.kind, body) && !Windowed(lim, f.body.kind)
    requires |Content(f.body.kind, body).entity| <= lim.cfg.maxBody
    requires Legal(log) && !Over(log) && LastCall(log).None?
    requires Interims(log) == if Awaits(f, f.body.kind) then 1 else 0
    ensures var c := Content(f.body.kind, body);
            var r := CallWhole(tok, conn, (eaten + buf)[..f.len], c.entity, c.trailers, Whole, choice, draining);
            Inv(tok, lim, Conclude(past, r.conn, eaten, buf, log + Events(r.calls), r.resp))
  {
    hide Legal, LastCall, Interims, Windows, IsBody, Content, TrueView, Served, CallOk, CallWhole, Conclude, Inv;
    var c := Content(f.body.kind, body);
    var wire := eaten + buf;
    var d := Dispatch(Whole, wire[..f.len], TrueView(wire, f), c.entity, c.trailers, false);
    WholeServed(tok, lim, wire, body, log, f, d);
    FinalCall(tok, lim, past, conn, eaten, buf, log, f, d, choice, draining);
  }

  // ----- whole chunked bodies

  /** However far earlier scans got, resuming reads the body region as one scan from its start would. */
  lemma {:induction false} ScanResumes(region: bytes, k: nat, pos: ScanPos)
    requires ScannedTo(region, k, pos)
    ensures var r := C.Run(region, C.INIT); F.Scan(region, pos) == (r.verdict, ScanPos(r.used, r.end))
  {
    hide C.Run, C.TakeTurn;
    C.RunExtends(region[..k], region[k..], C.INIT);
    C.RunStops(region[..k], C.INIT);
    assert region[..k] + region[k..] == region;
  }

  /** The bytes behind the head are the body region, wherever the head is kept. */
  lemma {:induction false} Region(tok: Tokenizer, lim: Limits, phase: Phase, eaten: bytes, buf: bytes, log: seq<Event>,
                                  f: Facts)
    requires phase.ScanBody? && f.len <= |eaten + buf| && f.body.BodyOk?
    requires PhaseOk(tok, lim, phase, eaten, eaten + buf, log, f)
    ensures phase.headLen <= |buf| && buf[phase.headLen..] == (eaten + buf)[f.len..]
    ensures eaten + buf[..phase.headLen] == (eaten + buf)[..f.len]
    ensures (match phase.stash case Some(h) => h case None => buf[..phase.headLen]) == (eaten + buf)[..f.len]
    ensures |buf| - phase.headLen == |eaten + buf| - f.len
  {
    hide ScannedTo;
    Empties(buf);
    Empties(eaten);
    Halves(eaten, buf);
  }

  lemma {:induction false} ScanLog(tok: Tokenizer, lim: Limits, phase: Phase, eaten: bytes, wire: bytes,
                                   log: seq<Event>, f: Facts)
    requires phase.ScanBody? && f.len <= |wire| && f.body.BodyOk? && eaten <= wire
    requires PhaseOk(tok, lim, phase, eaten, wire, log, f)
    ensures LastCall(log).None? && Interims(log) == if Awaits(f, f.body.kind) then 1 else 0
    ensures f.body.kind == ChunkFramed && !Windowed(lim, f.body.kind)
  {
    hide ScannedTo;
    if log != [] {
      assert log[..|log| - 1] == [];
    }
  }

  /** The scan step decides on the body region as a single scan of it reads. */
  lemma {:induction false} ScanDecides(conn: Conn, buf: bytes, cfg: Config, region: bytes, k: nat)
    requires conn.phase.ScanBody? && conn.phase.headLen <= |buf| && buf[conn.phase.headLen..] == region
    requires ScannedTo(region, k, conn.phase.scan)
    ensures var r, framed := C.Run(region, C.INIT), F.ScanStep(conn, buf, cfg);
            var pos := ScanPos(r.used, r.end);
            if F.OverCap(pos, cfg).Some? || r.verdict.Bad? then
              Fails(conn, buf, framed)
            else if r.verdict == C.More then framed == F.Framed(conn.(phase := conn.phase.(scan := pos)), MoreInMessage)
            else framed == F.Framed(conn.(phase := ScanDone(conn.phase.stash)),
                                    Framing.Complete(conn.phase.headLen, r.used))
  {
    ScanResumes(region, k, conn.phase.scan);
    C.RunStops(region, C.INIT);
    hide C.Run, F.Scan, F.MethodIsHead, ScannedTo;
  }

  /** A scan over what is buffered: refused, waiting further on, or one whole request. */
  lemma {:induction false} PumpScan(tok: Tokenizer, lim: Limits, sys: Sys, conn: Conn, f: Facts, env: Env)
    requires Sound(tok) && Inv(tok, lim, sys) && sys.open && conn.streamCap == lim.streamCap && conn.phase.ScanBody?
    requires Mid(tok, lim, conn, sys.eaten + sys.buf, sys.log, f)
    requires PhaseOk(tok, lim, conn.phase, sys.eaten, sys.eaten + sys.buf, sys.log, f)
    ensures Inv(tok, lim, Deliver(tok, lim, sys, F.ScanStep(conn, sys.buf, lim.cfg), env))
  {
    hide Inv, C.Run, Deliver, F.ScanStep, ScannedTo, CallsRead, TrueView;
    var region := (sys.eaten + sys.buf)[f.len..];
    var k :| ScannedTo(region, k, conn.phase.scan);
    Region(tok, lim, conn.phase, sys.eaten, sys.buf, sys.log, f);
    ScanDecides(conn, sys.buf, lim.cfg, region, k);
    hide PhaseOk, Mid;
    var r, framed := C.Run(region, C.INIT), F.ScanStep(conn, sys.buf, lim.cfg);
    if F.OverCap(ScanPos(r.used, r.end), lim.cfg).Some? || r.verdict.Bad? {
      Failing(tok, lim, sys, conn, framed, env);
    } else if r.verdict == C.More {
      ScanWaits(tok, lim, sys, conn, f, ScanPos(r.used, r.end));
      DeliverMore(tok, lim, sys, framed, env);
    } else {
      ScanCompletes(tok, lim, sys, conn, f, env);
    }
  }

  lemma {:induction false} DeliverMore(tok: Tokenizer, lim: Limits, sys: Sys, framed: F.Framed, env: Env)
    requires !framed.framing.Complete?
    ensures Deliver(tok, lim, sys, framed, env) == sys.(conn := framed.conn)
  {
    hide Step, Record;
  }

  /**
    A declared message that is not all there yet waits, one past the reactor's cap closes, and the rest is
    delivered.
  */
  lemma {:induction false} DeliverWhole(tok: Tokenizer, lim: Limits, sys: Sys, conn: Conn, h: nat, b: nat, env: Env)
    requires 0 < h + b <= lim.reactorCap && h + b <= |sys.buf|
    ensures Deliver(tok, lim, sys, F.Framed(conn, Framing.Complete(h, b)), env) ==
            Record(sys, h + b, Step(tok, conn, sys.buf[..h], sys.buf[h..h + b], env))
  {
    hide Step, Record;
  }

  lemma {:induction false} DeliverLater(tok: Tokenizer, lim: Limits, sys: Sys, conn: Conn, h: nat, b: nat, env: Env)
    requires |sys.buf| < h + b <= lim.reactorCap
    ensures Deliver(tok, lim, sys, F.Framed(conn, Framing.Complete(h, b)), env) == sys.(conn := conn)
  {
    hide Step, Record;
  }

  lemma {:induction false} StepExpect(tok: Tokenizer, conn: Conn, header: bytes, body: bytes, env: Env)
    requires conn.phase.ExpectBody?
    ensures Step(tok, conn, header, body, env) ==
            CallWhole(tok, conn.(phase := AtHead), conn.phase.head, body, [], Whole, env.first, env.drainingAfter)
  {
    hide CallWhole;
  }

  lemma {:induction false} DeliverShut(tok: Tokenizer, lim: Limits, sys: Sys, conn: Conn, h: nat, b: nat, env: Env)
    requires !(0 < h + b <= lim.reactorCap)
    requires Inv(tok, lim, sys) && conn.streamCap == lim.streamCap
    ensures Inv(tok, lim, Deliver(tok, lim, sys, F.Framed(conn, Framing.Complete(h, b)), env))
  {
    Shut(tok, lim, sys, conn);
    hide Step, Record, Inv;
  }

  lemma {:induction false} ScanWaits(tok: Tokenizer, lim: Limits, sys: Sys, conn: Conn, f: Facts, pos: ScanPos)
    requires Inv(tok, lim, sys) && sys.open && conn.streamCap == lim.streamCap && conn.phase.ScanBody?
    requires Mid(tok, lim, conn, sys.eaten + sys.buf, sys.log, f)
    requires PhaseOk(tok, lim, conn.phase, sys.eaten, sys.eaten + sys.buf, sys.log, f)
    requires F.OverCap(pos, lim.cfg) == None
    requires var r := C.Run((sys.eaten + sys.buf)[f.len..], C.INIT);
             r.verdict == C.More && pos == ScanPos(r.used, r.end)
    ensures Inv(tok, lim, sys.(conn := conn.(phase := conn.phase.(scan := pos))))
  {
    hide Legal, Traced, PastOk, Over, C.Run, CallsRead, TrueView;
    var region := (sys.eaten + sys.buf)[f.len..];
    assert region[..|region|] == region;
    assert ScannedTo(region, |region|, pos);
    var after := conn.(phase := conn.phase.(scan := pos));
    assert Mid(tok, lim, after, sys.eaten + sys.buf, sys.log, f);
    assert PhaseOk(tok, lim, after.phase, sys.eaten, sys.eaten + sys.buf, sys.log, f);
  }

  lemma {:induction false} ScanCompletes(tok: Tokenizer, lim: Limits, sys: Sys, conn: Conn, f: Facts, env: Env)
    requires Sound(tok) && Inv(tok, lim, sys) && sys.open && conn.streamCap == lim.streamCap && conn.phase.ScanBody?
    requires Mid(tok, lim, conn, sys.eaten + sys.buf, sys.log, f)
    requires PhaseOk(tok, lim, conn.phase, sys.eaten, sys.eaten + sys.buf, sys.log, f)
    requires var r := C.Run((sys.eaten + sys.buf)[f.len..], C.INIT);
             r.verdict == C.Complete && r.end.decoded <= lim.cfg.maxBody
    ensures var framed := F.Framed(conn.(phase := ScanDone(conn.phase.stash)),
                                   Framing.Complete(conn.phase.headLen,
                                                    C.Run((sys.eaten + sys.buf)[f.len..], C.INIT).used));
            Inv(tok, lim, Deliver(tok, lim, sys, framed, env))
  {
    hide Inv, C.Run, Deliver, ScannedTo, CallsRead, TrueView, Step, Record, R.Decode, CallWhole, Served, Measured,
         StreamAt, OwesEnd, LastCall, Interims, PhaseOk, Legal;
    var wire := sys.eaten + sys.buf;
    var region := wire[f.len..];
    var n := C.Run(region, C.INIT).used;
    Region(tok, lim, conn.phase, sys.eaten, sys.buf, sys.log, f);
    ScanLog(tok, lim, conn.phase, sys.eaten, wire, sys.log, f);
    hide Mid;
    var h := conn.phase.headLen;
    var done := conn.(phase := ScanDone(conn.phase.stash));
    if !(0 < h + n <= lim.reactorCap) {
      DeliverShut(tok, lim, sys, done, h, n, env);
    } else {
      var body := region[..n];
      R.DeclaredExtentDecodes(region);
      DeliverWhole(tok, lim, sys, done, h, n, env);
      SplitRegion(sys.eaten, sys.buf, f.len, h, n);
      ScannedStepIs(tok, done, sys.buf[..h], body, env);
      MidElsewhere(tok, lim, conn, sys.eaten + sys.buf, sys.log, f);
      ScannedDelivered(tok, lim, sys, conn.(phase := AtHead), f, h + n, body, env);
    }
  }

  lemma {:induction false} MidElsewhere(tok: Tokenizer, lim: Limits, conn: Conn, wire: bytes, log: seq<Event>, f: Facts)
    requires Mid(tok, lim, conn, wire, log, f)
    ensures Mid(tok, lim, conn.(phase := AtHead), wire, log, f)
  {
    hide HasHead, CallsRead, Measured, TrueView;
  }

  lemma {:induction false} SplitRegion(eaten: bytes, buf: bytes, len: nat, h: nat, n: nat)
    requires len <= |eaten + buf| && h + n <= |buf|
    requires buf[h..] == (eaten + buf)[len..] && eaten + buf[..h] == (eaten + buf)[..len]
    ensures buf[h..h + n] == (eaten + buf)[len..][..n]
    ensures eaten + buf[..h + n] == (eaten + buf)[..len] + (eaten + buf)[len..][..n]
  {
    assert buf[h..h + n] == buf[h..][..n];
    TakeSplit(buf, h, n);
    AppendAppend(eaten, buf[..h], buf[h..][..n]);
  }

  /** What acting on a scanned message amounts to once its body decodes. */
  lemma {:induction false} ScannedStepIs(tok: Tokenizer, done: Conn, header: bytes, body: bytes, env: Env)
    requires done.phase.ScanDone? && R.Decode(body).Some?
    ensures var head := match done.phase.stash case Some(h) => h case None => header;
            var d := R.Decode(body).value;
            Step(tok, done, header, body, env) ==
            CallWhole(tok, done.(phase := AtHead), head, d.entity, d.trailers, Whole, env.first, env.drainingAfter)
  {
    hide CallWhole, R.Decode;
  }

  lemma {:induction false} ScannedDelivered(tok: Tokenizer, lim: Limits, sys: Sys, conn: Conn, f: Facts, n: nat,
                                            body: bytes, env: Env)
    requires Sound(tok) && Inv(tok, lim, sys) && sys.open && conn.streamCap == lim.streamCap && conn.phase.AtHead?
    requires Mid(tok, lim, conn, sys.eaten + sys.buf, sys.log, f)
    requires LastCall(sys.log).None? && Interims(sys.log) == if Awaits(f, f.body.kind) then 1 else 0
    requires f.body.kind == ChunkFramed && !Windowed(lim, f.body.kind)
    requires n <= |sys.buf| && sys.eaten + sys.buf[..n] == (sys.eaten + sys.buf)[..f.len] + body
    requires R.Decode(body).Some? && |R.Decode(body).value.entity| <= lim.cfg.maxBody
    ensures var d := R.Decode(body).value;
            Inv(tok, lim, Record(sys, n,
              CallWhole(tok, conn, (sys.eaten + sys.buf)[..f.len], d.entity, d.trailers, Whole, env.first,
                                       env.drainingAfter)))
  {
    hide Legal, Over, LastCall, Interims, HasHead, PastOk, Traced, Waiting, CallWhole, Conclude, R.Decode;
    Cut(sys.eaten, sys.buf, n);
    WholeDelivered(tok, lim, sys.past, conn, sys.eaten + sys.buf[..n], sys.buf[n..], body, sys.log, f, env.first,
                   env.drainingAfter);
  }

  // ----- heads

  lemma {:induction false} ScanFromStart(region: bytes)
    ensures ScannedTo(region, 0, SCAN_START)
  {
    C.RunNothing();
    assert region[..0] == [];
  }

  /** The body that follows an interim: all of it, or a scan for its end. */
  lemma {:induction false} PumpExpect(tok: Tokenizer, lim: Limits, sys: Sys, f: Facts, env: Env)
    requires Sound(tok) && Inv(tok, lim, sys) && sys.open && sys.conn.phase.ExpectBody?
    requires Mid(tok, lim, sys.conn, sys.eaten + sys.buf, sys.log, f)
    requires PhaseOk(tok, lim, sys.conn.phase, sys.eaten, sys.eaten + sys.buf, sys.log, f)
    ensures Inv(tok, lim, Deliver(tok, lim, sys, F.Frame(tok, sys.conn, sys.buf, lim.cfg), env))
  {
    var kind := f.body.kind;
    hide Inv, Deliver, F.ScanStep, C.Run, CallsRead, TrueView, Legal, Interims, LastCall;
    match kind
    case ChunkFramed =>
      ScanFromStart((sys.eaten + sys.buf)[f.len..]);
      hide ScannedTo;
      var scanning := sys.conn.(phase := ScanBody(Some(sys.conn.phase.head), 0, SCAN_START));
      assert PhaseOk(tok, lim, scanning.phase, sys.eaten, sys.eaten + sys.buf, sys.log, f);
      SameCap(tok, lim, sys);
      PumpScan(tok, lim, sys, scanning, f, env);
    case Sized(n) =>
      SizedDelivered(tok, lim, sys, sys.conn, f, n, env);
  }

  lemma {:induction false} SameCap(tok: Tokenizer, lim: Limits, sys: Sys)
    requires Inv(tok, lim, sys)
    ensures sys.conn.streamCap == lim.streamCap && PastOk(tok, lim, sys.past) && Legal(sys.log)
    ensures Traced(tok, lim, sys.eaten + sys.buf, sys.log) && (sys.open ==> !Over(sys.log))
  {
    hide Legal, Traced, PastOk, Waiting, Over;
  }

  lemma {:induction false} InterimLog(log: seq<Event>)
    requires log == [Sent(Reply(Interim))]
    ensures LastCall(log).None? && Interims(log) == 1
  {
    assert log[..|log| - 1] == [];
  }

  /** A body of known length, once all of it is there. */
  lemma {:induction false} SizedDelivered(tok: Tokenizer, lim: Limits, sys: Sys, conn: Conn, f: Facts, n: nat, env: Env)
    requires Sound(tok) && Inv(tok, lim, sys) && sys.open && conn.phase.ExpectBody? && conn == sys.conn
    requires Mid(tok, lim, conn, sys.eaten + sys.buf, sys.log, f) && f.body.kind == Sized(n)
    requires PhaseOk(tok, lim, conn.phase, sys.eaten, sys.eaten + sys.buf, sys.log, f)
    ensures Inv(tok, lim, Deliver(tok, lim, sys, F.Framed(conn, Framing.Complete(0, n)), env))
  {
    hide Inv, CallsRead, TrueView, Legal, Record, PastOk, Traced, CallWhole, LastCall, Interims, Over, Step, Deliver,
         Served, StreamAt, OwesEnd, Measured, HasHead;
    SameCap(tok, lim, sys);
    InterimLog(sys.log);
    if !(0 < n <= lim.reactorCap) {
      DeliverShut(tok, lim, sys, conn, 0, n, env);
    } else if n <= |sys.buf| {
      DeliverWhole(tok, lim, sys, conn, 0, n, env);
      var body := sys.buf[..n];
      assert sys.buf[0..n] == body;
      StepExpect(tok, conn, sys.buf[..0], body, env);
      SizedCalled(tok, lim, sys, conn.(phase := AtHead), f, n, body, env);
    } else {
      DeliverLater(tok, lim, sys, conn, 0, n, env);
    }
  }

  lemma {:induction false} SizedCalled(tok: Tokenizer, lim: Limits, sys: Sys, conn: Conn, f: Facts, n: nat, body: bytes,
                                       env: Env)
    requires Sound(tok) && Inv(tok, lim, sys) && sys.open && conn.streamCap == lim.streamCap && conn.phase.AtHead?
    requires Mid(tok, lim, conn, sys.eaten + sys.buf, sys.log, f)
    requires LastCall(sys.log).None? && Interims(sys.log) == if Awaits(f, f.body.kind) then 1 else 0
    requires f.body.kind == Sized(|body|) && |body| <= lim.cfg.maxBody && !Windowed(lim, f.body.kind)
    requires n <= |sys.buf| && sys.eaten + sys.buf[..n] == (sys.eaten + sys.buf)[..f.len] + body
    ensures Inv(tok, lim, Record(sys, n,
              CallWhole(tok, conn, (sys.eaten + sys.buf)[..f.len], body, [], Whole, env.first, env.drainingAfter)))
  {
    hide Legal, Over, LastCall, Interims, HasHead, PastOk, Traced, Waiting, CallWhole, Conclude;
    Cut(sys.eaten, sys.buf, n);
    WholeDelivered(tok, lim, sys.past, conn, sys.eaten + sys.buf[..n], sys.buf[n..], body, sys.log, f, env.first,
                   env.drainingAfter);
  }

  /** A head at the front of the buffer. */
  ghost predicate Fresh(tok: Tokenizer, lim: Limits, sys: Sys, conn: Conn, f: Facts) {
    && Inv(tok, lim, sys) && sys.open && sys.eaten == [] && sys.log == []
    && conn.streamCap == lim.streamCap && conn.phase == AtHead
    && Mid(tok, lim, conn, sys.buf, [], f) && 0 < f.len
  }

  lemma {:induction false} OpenDelivered(tok: Tokenizer, lim: Limits, sys: Sys, conn: Conn, f: Facts, env: Env)
    requires Sound(tok) && Fresh(tok, lim, sys, conn, f) && Windowed(lim, f.body.kind)
    requires f.body.kind.Sized? ==> Capped(lim, f.body.kind.len)
    ensures var stream := conn.(phase := StreamOpen(sys.buf[..f.len], f.expects, f.body.kind));
            Inv(tok, lim, Deliver(tok, lim, sys, F.Framed(stream, Framing.Complete(f.len, 0)), env))
  {
    SameCap(tok, lim, sys);
    var head := sys.buf[..f.len];
    var stream := conn.(phase := StreamOpen(head, f.expects, f.body.kind));
    hide Inv, CallsRead, TrueView, Legal, Record, PastOk, Traced, OpenStep, Step, Deliver;
    if !(0 < f.len <= lim.reactorCap) {
      DeliverShut(tok, lim, sys, stream, f.len, 0, env);
    } else {
      DeliverWhole(tok, lim, sys, stream, f.len, 0, env);
      StepOpen(tok, stream, sys.buf[..f.len], sys.buf[f.len..f.len + 0], env);
      Opened(tok, lim, sys, conn, f, env);
    }
  }

  lemma {:induction false} StepOpen(tok: Tokenizer, conn: Conn, header: bytes, body: bytes, env: Env)
    requires conn.phase.StreamOpen?
    ensures Step(tok, conn, header, body, env) ==
            OpenStep(tok, conn.(phase := AtHead), conn.phase.head, conn.phase.expects, conn.phase.kind, env)
  {
    hide OpenStep;
  }

  lemma {:induction false} Opened(tok: Tokenizer, lim: Limits, sys: Sys, conn: Conn, f: Facts, env: Env)
    requires Sound(tok) && Fresh(tok, lim, sys, conn, f) && Windowed(lim, f.body.kind)
    requires f.body.kind.Sized? ==> Capped(lim, f.body.kind.len)
    ensures Inv(tok, lim, Record(sys, f.len, OpenStep(tok, conn, sys.buf[..f.len], f.expects, f.body.kind, env)))
  {
    SameCap(tok, lim, sys);
    var head, rest := sys.buf[..f.len], sys.buf[f.len..];
    hide Inv, Legal, PastOk, Traced, Over;
    if env.draining {
      hide Mid, Record;
      Farewelled(tok, lim, sys, f.len, conn, 503, F.MethodIsHead(head));
    } else {
      var d := Dispatch(Open, head, TrueView(sys.buf, f), [], [], false);
      var next := match f.body.kind case ChunkFramed => StreamBody(head, 0, false, 0)
                                    case Sized(len) => StreamKnown(head, len);
      assert head + rest == sys.buf;
      Empties(head);
      FirstCall(d);
      OpenAt(lim, head, sys.buf, f, d, next);
      hide LastCall, Interims, Windows, HasHead, TrueView, StreamAt, Call, StreamSettle, Conclude, CallOk;
      assert InterimState([], Open, f, f.expects);
      StreamCall(tok, lim, sys.past, conn, head, rest, [], f, d, next, next, f.expects, env.first, env.drainingAfter);
    }
  }

  lemma {:induction false} FirstCall(d: Dispatch)
    requires d.stage == Open && ShapeOk(d) && !d.redriven
    ensures CallOk([], d) && Interims([]) == 0 && Legal([]) && !Over([])
  {
  }

  lemma {:induction false} OpenAt(lim: Limits, head: bytes, wire: bytes, f: Facts, d: Dispatch, next: Phase)
    requires f.len <= |wire| && head == wire[..f.len] && f.body.BodyOk? && Windowed(lim, f.body.kind)
    requires f.body.kind.Sized? ==> Capped(lim, f.body.kind.len)
    requires d.stage == Open && CallOk([], d)
    requires next == match f.body.kind case ChunkFramed => StreamBody(head, 0, false, 0)
                                       case Sized(len) => StreamKnown(head, len)
    ensures StreamAt(lim, head, wire, [] + [Called(d)], f, next)
  {
    PushCall([], d);
    hide LastCall, Windows, CallOk;
    assert Windows([]) == [] by { NoWindows(); }
    assert head[f.len..] == [];
    C.RunNothing();
  }

  lemma {:induction false} NoWindows()
    ensures Windows([]) == []
  {
  }

  lemma {:induction false} InviteDelivered(tok: Tokenizer, lim: Limits, sys: Sys, conn: Conn, f: Facts, env: Env)
    requires Sound(tok) && Fresh(tok, lim, sys, conn, f)
    requires Awaits(f, f.body.kind) && !Windowed(lim, f.body.kind)
    requires f.body.kind.Sized? ==> f.body.kind.len <= lim.cfg.maxBody
    ensures var invited := conn.(phase := ExpectHead(sys.buf[..f.len], f.body.kind));
            Inv(tok, lim, Deliver(tok, lim, sys, F.Framed(invited, Framing.Complete(f.len, 0)), env))
  {
    SameCap(tok, lim, sys);
    var head := sys.buf[..f.len];
    var invited := conn.(phase := ExpectHead(head, f.body.kind));
    hide Inv, CallsRead, TrueView, Legal, Record, PastOk, Traced;
    if !(0 < f.len <= lim.reactorCap) {
      DeliverShut(tok, lim, sys, invited, f.len, 0, env);
    } else {
      DeliverWhole(tok, lim, sys, invited, f.len, 0, env);
      if env.draining {
        Farewelled(tok, lim, sys, f.len, conn, 503, F.MethodIsHead(head));
      } else {
        Invited(tok, lim, sys, conn.(phase := ExpectBody(head, f.body.kind)), f);
      }
    }
  }

  lemma {:induction false} Invited(tok: Tokenizer, lim: Limits, sys: Sys, conn: Conn, f: Facts)
    requires Sound(tok) && Fresh(tok, lim, sys, conn.(phase := AtHead), f)
    requires Awaits(f, f.body.kind) && !Windowed(lim, f.body.kind)
    requires f.body.kind.Sized? ==> f.body.kind.len <= lim.cfg.maxBody
    requires conn.phase == ExpectBody(sys.buf[..f.len], f.body.kind)
    ensures Inv(tok, lim, Record(sys, f.len, Result(conn, Reply(Interim), [])))
  {
    SameCap(tok, lim, sys);
    var head, rest := sys.buf[..f.len], sys.buf[f.len..];
    assert head + rest == sys.buf;
    Empties(head);
    assert RespOk([], Reply(Interim));
    assert PhaseOk(tok, lim, conn.phase, head, sys.buf, [] + [Sent(Reply(Interim))], f);
    assert Events([]) == [];
    hide Inv, CallsRead, TrueView, Legal, PastOk, Traced, HasHead, Conclude, PhaseOk, RespOk, Events;
    ConcludeGoing(tok, lim, sys.past, conn, head, rest, [], Reply(Interim), f);
  }

  /** A head and what it declares: refused, opened as a stream, invited, delivered whole, or scanned. */
  lemma {:induction false} PumpBody(tok: Tokenizer, lim: Limits, sys: Sys, conn: Conn, f: Facts, env: Env)
    requires Sound(tok) && Fresh(tok, lim, sys, conn, f)
    ensures Inv(tok, lim, Deliver(tok, lim, sys, F.BodyStep(conn, sys.buf, lim.cfg, f, f.body.kind), env))
  {
    var kind := f.body.kind;
    var framed := F.BodyStep(conn, sys.buf, lim.cfg, f, kind);
    hide Inv, CallsRead, TrueView, Deliver, F.ScanStep;
    if framed.conn.phase.Fail? && !(kind.ChunkFramed? && conn.streamCap.None? && !f.expects) {
      Failing(tok, lim, sys, conn, framed, env);
    } else if Windowed(lim, kind) {
      OpenDelivered(tok, lim, sys, conn, f, env);
    } else if Awaits(f, kind) {
      InviteDelivered(tok, lim, sys, conn, f, env);
    } else if kind.Sized? {
      HeadAndBody(tok, lim, sys, conn, f, kind.len, env);
    } else {
      ScanFirst(tok, lim, sys, conn, f, env);
    }
  }

  lemma {:induction false} ScanFirst(tok: Tokenizer, lim: Limits, sys: Sys, conn: Conn, f: Facts, env: Env)
    requires Sound(tok) && Fresh(tok, lim, sys, conn, f) && f.body.kind == ChunkFramed && !f.expects
             && lim.streamCap.None?
    ensures var scanning := conn.(phase := ScanBody(None, f.len, SCAN_START));
            Inv(tok, lim, Deliver(tok, lim, sys, F.ScanStep(scanning, sys.buf, lim.cfg), env))
  {
    hide Inv, CallsRead, TrueView, Deliver, F.ScanStep, C.Run;
    var scanning := conn.(phase := ScanBody(None, f.len, SCAN_START));
    ScanFromStart(sys.buf[f.len..]);
    hide ScannedTo;
    Empties(sys.buf);
    assert PhaseOk(tok, lim, scanning.phase, [], sys.buf, [], f);
    PumpScan(tok, lim, sys, scanning, f, env);
  }

  lemma {:induction false} HeadAndBody(tok: Tokenizer, lim: Limits, sys: Sys, conn: Conn, f: Facts, n: nat, env: Env)
    requires Sound(tok) && Fresh(tok, lim, sys, conn, f) && f.body.kind == Sized(n) && n <= lim.cfg.maxBody
    requires !Windowed(lim, f.body.kind) && !Awaits(f, f.body.kind)
    ensures Inv(tok, lim, Deliver(tok, lim, sys, F.Framed(conn, Framing.Complete(f.len, n)), env))
  {
    hide CallsRead, TrueView, Legal, Record, PastOk, Traced, CallWhole, LastCall, Interims;
    var framed := F.Framed(conn, Framing.Complete(f.len, n));
    if !(0 < f.len + n <= lim.reactorCap) {
      DeliverShut(tok, lim, sys, conn, f.len, n, env);
    } else if f.len + n > |sys.buf| {
      AtHeadKeeps(tok, lim, sys, conn);
      hide Step, Inv;
    } else {
      hide Inv, Deliver;
      DeliverWhole(tok, lim, sys, conn, f.len, n, env);
      Empties(sys.buf);
      Empties(sys.buf[..f.len + n]);
      TakeSplit(sys.buf, f.len, n);
      var body := sys.buf[f.len..f.len + n];
      assert body == sys.buf[f.len..][..n];
      FirstLog();
      SizedCalled(tok, lim, sys, conn, f, f.len + n, body, env);
    }
  }

  lemma {:induction false} FirstLog()
    ensures LastCall([]).None? && Interims([]) == 0
  {
  }

  lemma {:induction false} AtHeadKeeps(tok: Tokenizer, lim: Limits, sys: Sys, conn: Conn)
    requires Inv(tok, lim, sys) && sys.open && sys.eaten == [] && sys.log == []
    requires conn.streamCap == lim.streamCap && conn.phase == AtHead
    ensures Inv(tok, lim, sys.(conn := conn))
  {
    hide Legal, PastOk, Traced, Over;
  }

  lemma {:induction false} PumpHead(tok: Tokenizer, lim: Limits, sys: Sys, env: Env)
    requires Sound(tok) && Inv(tok, lim, sys) && sys.open && sys.conn.phase == AtHead
    ensures Inv(tok, lim, Deliver(tok, lim, sys, F.Frame(tok, sys.conn, sys.buf, lim.cfg), env))
  {
    SameCap(tok, lim, sys);
    assert sys.eaten == [] && sys.log == [];
    assert ParseOk(tok, sys.buf);
    FirstLog();
    hide Inv, Deliver, F.BodyStep, Traced, Legal, PastOk, Interims, LastCall;
    var framed := F.HeadStep(tok, sys.conn, sys.buf, lim.cfg);
    match tok.parse(sys.buf)
    case Rejected(status) =>
      Failing(tok, lim, sys, sys.conn.(index := None), framed, env);
    case Partial =>
      if |sys.buf| > lim.cfg.maxHead {
        Failing(tok, lim, sys, sys.conn.(index := None), framed, env);
      } else {
        DeliverMore(tok, lim, sys, framed, env);
        AtHeadKeeps(tok, lim, sys, sys.conn.(index := None));
      }
    case Parsed(f) =>
      var indexed := sys.conn.(index := IndexOf(f));
      if f.len > lim.cfg.maxHead || f.body.BodyBad? {
        Failing(tok, lim, sys, indexed, framed, env);
      } else {
        PumpBody(tok, lim, sys, indexed, f, env);
      }
  }
}
