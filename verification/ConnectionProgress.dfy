/** What one pump does with a request within the limits once all of it has arrived. */
module ConnectionProgress {
  import opened Bytes
  import opened HttpTypes
  import opened Glue
  import opened Connection
  import opened ConnectionInvariant
  import opened ConnectionSteps
  import opened ConnectionStreams
  import opened ConnectionSafety
  import F = Framer
  import C = Chunked
  import W = ChunkWalk
  import R = ChunkedReaders

  /** What the configured limits admit. */
  predicate Admits(lim: Limits, kind: BodyKind, body: bytes)
    requires IsBody(kind, body)
  {
    var n := |Content(kind, body).entity|;
    if Windowed(lim, kind) then n <= lim.streamCap.value
    else
      && n <= lim.cfg.maxBody
      && (lim.streamCap.Some? ==> n <= lim.streamCap.value)
      && (kind.ChunkFramed? ==> |body| <= Min(lim.cfg.maxBody + 16 * 1024, USIZE_MAX))
  }

  /** A request the limits admit, on a reactor whose buffer is as large as asked for. */
  ghost predicate Admissible(tok: Tokenizer, lim: Limits, w: bytes, f: Facts) {
    && IsRequest(tok, lim, w, f) && Admits(lim, f.body.kind, w[f.len..])
    && f.len <= USIZE_MAX && (Windowed(lim, f.body.kind) || |w| <= USIZE_MAX)
    && BufferNeeded(lim.cfg) <= lim.reactorCap
  }

  /** An open connection on which all of an admissible request has arrived. */
  ghost predicate Ready(tok: Tokenizer, lim: Limits, sys: Sys, w: bytes, f: Facts) {
    Sound(tok) && Inv(tok, lim, sys) && sys.open && w <= sys.eaten + sys.buf && Admissible(tok, lim, w, f)
  }

  /** One pump delivers the next `n` bytes. */
  ghost predicate Delivers(tok: Tokenizer, lim: Limits, sys: Sys, env: Env, n: nat, r: Result) {
    var framed := F.Frame(tok, sys.conn, sys.buf, lim.cfg);
    && !sys.conn.phase.Parked? && framed.framing.Complete?
    && var h := framed.framing.headerLen;
       && n == h + framed.framing.bodyLen && 0 < n <= |sys.buf| && n <= lim.reactorCap
       && r == Step(tok, framed.conn, sys.buf[..h], sys.buf[h..n], env)
  }

  /** The handler was told the request is complete. */
  predicate Final(r: Result) {
    r.calls != [] && (r.calls[|r.calls| - 1].stage == Whole || r.calls[|r.calls| - 1].stage == End)
  }

  /** The handler reads on, and the server is not shutting down. */
  predicate Continues(env: Env) {
    env.first.Continue? && env.second.Continue? && !env.draining
  }

  /**
    Reading on keeps the connection going until the request is complete; a handler that then has no answer
    closes it.
  */
  predicate Goes(r: Result) {
    if Final(r) then r.resp == Close
    else (r.resp == Reply(Interim) || r.resp == Reply(Nothing)) && !r.conn.phase.Parked?
  }

  /**
    A delivery of some of the request and nothing past it, that reached the handler or invited the body,
    and told the handler the request is complete only when all of it was delivered.
  */
  ghost predicate Heard(tok: Tokenizer, lim: Limits, sys: Sys, w: bytes, env: Env, n: nat, r: Result) {
    && Delivers(tok, lim, sys, env, n, r) && |sys.eaten| + n <= |w|
    && (r.calls != [] || r.resp == Reply(Interim))
    && (Final(r) ==> |sys.eaten| + n == |w|)
    && (Continues(env) ==> Goes(r))
  }

  lemma {:induction false} WindowFits(cfg: Config)
    ensures F.STREAM_WINDOW + C.CHUNK_LINE_MAX + 4 <= BufferNeeded(cfg)
    ensures W.TERMINAL_MAX <= BufferNeeded(cfg)
  {
  }

  /** The request in progress is the one that is ready. */
  lemma {:induction false} SameHead(tok: Tokenizer, lim: Limits, wire: bytes, w: bytes, f: Facts, g: Facts)
    requires Sound(tok) && w <= wire && HasHead(tok, lim, w, f) && HasHead(tok, lim, wire, g)
    ensures f == g && wire[..f.len] == w[..f.len]
  {
    assert wire == w + wire[|w|..];
    assert tok.parse(w + wire[|w|..]) == tok.parse(w);
  }

  /** The handler is always called. */
  lemma {:induction false} AlwaysCalls(tok: Tokenizer, lim: Limits, conn: Conn, wire: bytes, f: Facts, body: bytes,
                                       trailers: seq<C.Field>, stage: Stage, redriven: bool, choice: Choice,
                                       draining: bool)
    requires Sound(tok) && HasHead(tok, lim, wire, f) && conn.index == IndexOf(f)
    ensures Call(tok, conn, wire[..f.len], body, trailers, stage, redriven, choice, draining).1 ==
            [Dispatch(stage, wire[..f.len], TrueView(wire, f), body, trailers, redriven)]
  {
    ViewFound(tok, lim, conn, wire, f);
    hide HeadView, TrueView;
  }

  /** The call that completes a request is made, and Continue is no answer to it. */
  lemma {:induction false} FinalCalls(tok: Tokenizer, lim: Limits, conn: Conn, wire: bytes, f: Facts, body: bytes,
                                      trailers: seq<C.Field>, stage: Stage, choice: Choice, draining: bool)
    requires Sound(tok) && HasHead(tok, lim, wire, f) && conn.index == IndexOf(f) && (stage == Whole || stage == End)
    ensures var r := CallWhole(tok, conn, wire[..f.len], body, trailers, stage, choice, draining);
            && r.calls == [Dispatch(stage, wire[..f.len], TrueView(wire, f), body, trailers, false)]
            && (choice.Continue? ==> r.resp == Close)
  {
    AlwaysCalls(tok, lim, conn, wire, f, body, trailers, stage, false, choice, draining);
    ViewFound(tok, lim, conn, wire, f);
    hide HeadView, TrueView, Sound;
  }

  // ----- known lengths

  lemma {:induction false} KnownProgress(tok: Tokenizer, lim: Limits, sys: Sys, w: bytes, f: Facts, env: Env)
    returns (n: nat, r: Result)
    requires Ready(tok, lim, sys, w, f) && InStream(tok, lim, sys, f) && sys.conn.phase.StreamKnown?
    ensures Heard(tok, lim, sys, w, env, n, r)
  {
    hide Inv, Legal, LastCall, Interims, Windows, Step, CallsRead, TrueView, Measured, Sound, BufferNeeded, Final,
         Goes;
    var p := sys.conn.phase;
    n := Min(p.remaining, F.STREAM_WINDOW);
    WindowFits(lim.cfg);
    assert |w| == |sys.eaten| + p.remaining;
    assert sys.buf[0..n] == sys.buf[..n];
    StepKnown(tok, sys.conn, sys.buf[..0], sys.buf[..n], env);
    r := Step(tok, sys.conn, sys.buf[..0], sys.buf[..n], env);
    KnownCalls(tok, lim, sys.conn.(phase := AtHead), sys.eaten + sys.buf, f, p.remaining, sys.buf[..n], env);
  }

  lemma {:induction false} KnownCalls(tok: Tokenizer, lim: Limits, conn: Conn, wire: bytes, f: Facts, remaining: nat,
                                      body: bytes, env: Env)
    requires Sound(tok) && HasHead(tok, lim, wire, f) && conn.index == IndexOf(f) && |body| <= remaining
    ensures var r := KnownWindowStep(tok, conn, wire[..f.len], remaining, body, env);
            r.calls != [] && (Final(r) ==> |body| == remaining) && (Continues(env) ==> Goes(r))
  {
    AlwaysCalls(tok, lim, conn, wire, f, body, [], Window, false, env.first, env.drainingAfter);
    ViewFound(tok, lim, conn, wire, f);
    FinalCalls(tok, lim, conn, wire, f, [], [], End, env.second, env.drainingAfter);
    var d := Dispatch(Window, wire[..f.len], TrueView(wire, f), body, [], false);
    if env.first.Continue? {
      GoesOn(tok, conn, d, env.drainingAfter);
    }
    hide HeadView, TrueView, Sound, CallWhole, Call;
  }

  // ----- chunked streams

  /** A run that completes from inside a chunk has all of that chunk, and what closes it, ahead. */
  lemma {:induction false} DataAhead(rest: bytes, decoded: nat, left: nat)
    requires 0 < left && C.Run(rest, C.Machine(decoded, 0, C.Data(left))).verdict == C.Complete
    ensures var r := C.Run(rest, C.Machine(decoded, 0, C.Data(left))); left + 2 <= r.used && left <= |r.payload|
  {
    var m := C.Machine(decoded, 0, C.Data(left));
    var t := C.TakeTurn(rest, m);
    var u := C.TakeTurn(rest[t.used..], t.next);
    assert t.used == left && t.next.state == C.DataCrlf;
    assert u.stop.None? ==> u.used == 2;
  }

  /** From where the stream stands, one run over the buffer completes exactly at the end of the request. */
  lemma {:induction false} Ahead(eaten: bytes, buf: bytes, log: seq<Event>, f: Facts, left: nat, after: bool,
                                 decoded: nat, w: bytes)
    requires ChunkedAt(eaten, log, f, left, after, decoded) && w <= eaten + buf && f.len <= |w|
             && R.Decode(w[f.len..]).Some?
    ensures |eaten| < |w|
    ensures var r := C.Run(buf, C.Machine(|Windows(log)|, 0, StateAt(left, after)));
            && r.verdict == C.Complete && |eaten| + r.used == |w|
            && |Windows(log)| + |r.payload| == |R.Decode(w[f.len..]).value.entity|
  {
    hide C.Run, C.TakeTurn, Windows, R.Decode;
    var wire := eaten + buf;
    var done, body := eaten[f.len..], w[f.len..];
    R.DecodeIsRun(body);
    assert wire == w + wire[|w|..];
    DropAppend(w, wire[|w|..], f.len);
    DropAppend(eaten, buf, f.len);
    C.RunExtends(body, wire[|w|..], C.INIT);
    W.Chain(done, buf, C.INIT);
  }

  lemma {:induction false} ChunkIsAhead(buf: bytes, decoded: nat, after: bool)
    requires C.Run(buf, W.Boundary(decoded, after)).verdict == C.Complete
    ensures var s, r := W.NextChunk(buf, after), C.Run(buf, W.Boundary(decoded, after));
            && (s.ChunkAt? ==> s.framing + s.payload + 2 <= r.used && s.payload <= |r.payload|)
            && (s.LastAt? ==> s.framing == r.used)
            && (s.ChunkAt? || s.LastAt?)
  {
    hide C.Run, C.TakeTurn, W.NextChunk;
    var s, m := W.NextChunk(buf, after), W.Boundary(decoded, after);
    W.VerdictAgrees(buf, decoded, after);
    if s.Malformed? && after && |buf| == 1 {
      LoneByte(buf, decoded);
    }
    if s.ChunkAt? {
      W.ChunkAgrees(buf, decoded, after);
      var head, rest := buf[..s.framing], buf[s.framing..];
      assert head + rest == buf;
      W.Chain(head, rest, m);
      DataAhead(rest, decoded, s.payload);
    } else if s.LastAt? {
      W.LastAgrees(buf, decoded, after);
      var head, rest := buf[..s.framing], buf[s.framing..];
      assert head + rest == buf;
      C.RunExtends(head, rest, m);
    }
  }

  lemma {:induction false} LoneByte(buf: bytes, decoded: nat)
    requires |buf| == 1
    ensures C.Run(buf, W.Boundary(decoded, true)).verdict == C.More
  {
  }

  /** One pump on a chunked stream whose request is all there: a window or the End, within the request. */
  lemma {:induction false} ChunkProgress(tok: Tokenizer, lim: Limits, sys: Sys, w: bytes, f: Facts, env: Env)
    returns (n: nat, r: Result)
    requires Ready(tok, lim, sys, w, f) && InStream(tok, lim, sys, f) && sys.conn.phase.StreamBody?
    ensures Heard(tok, lim, sys, w, env, n, r)
  {
    hide Inv, Legal, LastCall, Interims, Windows, Step, CallsRead, TrueView, Measured, Sound, BufferNeeded, C.Run,
         R.Decode, W.NextChunk, Final, Goes, Delivers;
    SameCap(tok, lim, sys);
    var p := sys.conn.phase;
    Ahead(sys.eaten, sys.buf, sys.log, f, p.chunkLeft, p.afterPayload, p.decoded, w);
    WindowFits(lim.cfg);
    if p.chunkLeft > 0 {
      DataAhead(sys.buf, |Windows(sys.log)|, p.chunkLeft);
      n, r := ChunkWindow(tok, lim, sys, f, 0, p.chunkLeft, env);
    } else {
      ChunkIsAhead(sys.buf, |Windows(sys.log)|, p.afterPayload);
      match W.NextChunk(sys.buf, p.afterPayload)
      case ChunkAt(framing, payload) =>
        W.ChunkAgrees(sys.buf, |Windows(sys.log)|, p.afterPayload);
        n, r := ChunkWindow(tok, lim, sys, f, framing, payload, env);
      case LastAt(framing) =>
        n, r := LastWindow(tok, lim, sys, f, env);
    }
  }

  lemma {:induction false} ChunkWindow(tok: Tokenizer, lim: Limits, sys: Sys, f: Facts, h: nat, owed: nat, env: Env)
    returns (n: nat, r: Result)
    requires Sound(tok) && HasHead(tok, lim, sys.eaten + sys.buf, f) && sys.conn.index == IndexOf(f)
    requires sys.conn.phase.StreamBody? && sys.conn.phase.head == (sys.eaten + sys.buf)[..f.len]
    requires 0 < owed && h + owed <= |sys.buf| && h + F.STREAM_WINDOW <= lim.reactorCap
    requires F.StreamStep(sys.conn, sys.buf) == F.Framed(sys.conn, Framing.Complete(h, Min(owed, F.STREAM_WINDOW)))
    requires if sys.conn.phase.chunkLeft > 0 then owed == sys.conn.phase.chunkLeft
             else W.NextChunk(sys.buf[..h], sys.conn.phase.afterPayload).ChunkAt?
                  && W.NextChunk(sys.buf[..h], sys.conn.phase.afterPayload).payload == owed
    ensures Delivers(tok, lim, sys, env, n, r) && n <= h + owed
    ensures r.calls != [] && !Final(r) && (Continues(env) ==> Goes(r))
  {
    hide Step, W.NextChunk, Sound, TrueView, F.StreamStep, Call;
    var conn, wire, size := sys.conn, sys.eaten + sys.buf, Min(owed, F.STREAM_WINDOW);
    n := h + size;
    var body := sys.buf[h..n];
    r := Step(tok, conn, sys.buf[..h], body, env);
    var d := Dispatch(Window, conn.phase.head, TrueView(wire, f), body, [], false);
    StepChunk(tok, conn, sys.buf[..h], body, owed, d.view, env);
    AlwaysCalls(tok, lim, conn.(phase := AtHead), wire, f, body, [], Window, false, env.first, env.drainingAfter);
    if env.first.Continue? {
      ViewFound(tok, lim, conn, wire, f);
      GoesOn(tok, conn.(phase := AtHead), d, env.drainingAfter);
    }
  }

  lemma {:induction false} LastWindow(tok: Tokenizer, lim: Limits, sys: Sys, f: Facts, env: Env)
    returns (n: nat, r: Result)
    requires InStream(tok, lim, sys, f) && sys.conn.phase.StreamBody? && sys.conn.phase.chunkLeft == 0
    requires W.NextChunk(sys.buf, sys.conn.phase.afterPayload).LastAt? && W.TERMINAL_MAX <= lim.reactorCap
    ensures n == W.NextChunk(sys.buf, sys.conn.phase.afterPayload).framing && Delivers(tok, lim, sys, env, n, r)
    ensures r.calls != [] && Final(r) && (Continues(env) ==> Goes(r))
  {
    hide Inv, Legal, LastCall, Interims, Windows, Step, TrueView, Measured, Sound, C.Run, R.Decode, W.NextChunk,
         CallWhole, BlockTrailers;
    var conn, p, wire := sys.conn, sys.conn.phase, sys.eaten + sys.buf;
    n := W.NextChunk(sys.buf, p.afterPayload).framing;
    LastBlock(sys.eaten, sys.buf, sys.log, f, p.afterPayload, p.decoded);
    W.WalkBounds(sys.buf, p.afterPayload);
    var at: nat := if p.afterPayload then 2 else 0;
    var done := conn.(phase := StreamDone(p.head, at));
    StepDone(tok, done, sys.buf[..n], sys.buf[n..n], env);
    var trailers := BlockTrailers(sys.buf[..n][at..]);
    r := EndCall(tok, conn.(phase := AtHead), p.head, trailers, env.first, env.drainingAfter);
    FinalCalls(tok, lim, conn.(phase := AtHead), wire, f, [], trailers, End, env.first, env.drainingAfter);
  }

  // ----- a request within the limits is not refused

  /** The reactor's buffer takes any head with a body the limits admit. */
  lemma {:induction false} RequestFits(cfg: Config, head: nat, body: nat)
    requires head <= cfg.maxHead && body <= F.WireCap(cfg) && head + body <= USIZE_MAX
    ensures head + body <= BufferNeeded(cfg)
  {
  }

  lemma {:induction false} ScanProgress(tok: Tokenizer, lim: Limits, sys: Sys, conn: Conn, w: bytes, f: Facts, env: Env)
    returns (n: nat, r: Result)
    requires Ready(tok, lim, sys, w, f) && conn.streamCap == lim.streamCap && conn.phase.ScanBody?
    requires Mid(tok, lim, conn, sys.eaten + sys.buf, sys.log, f)
    requires PhaseOk(tok, lim, conn.phase, sys.eaten, sys.eaten + sys.buf, sys.log, f)
    requires !sys.conn.phase.Parked? && F.Frame(tok, sys.conn, sys.buf, lim.cfg) == F.ScanStep(conn, sys.buf, lim.cfg)
    ensures Heard(tok, lim, sys, w, env, n, r)
  {
    hide Inv, C.Run, F.Frame, F.ScanStep, ScannedTo, CallsRead, TrueView, Sound, R.Decode, Step, BufferNeeded,
         Measured, Final, Goes;
    var wire, h := sys.eaten + sys.buf, conn.phase.headLen;
    var region := wire[f.len..];
    var k :| ScannedTo(region, k, conn.phase.scan);
    Region(tok, lim, conn.phase, sys.eaten, sys.buf, sys.log, f);
    ScanLog(tok, lim, conn.phase, sys.eaten, wire, sys.log, f);
    ScanDecides(conn, sys.buf, lim.cfg, region, k);
    hide PhaseOk;
    RegionRuns(wire, w, f);
    var run, done := C.Run(region, C.INIT), conn.(phase := ScanDone(conn.phase.stash));
    assert F.ScanStep(conn, sys.buf, lim.cfg) == F.Framed(done, Framing.Complete(h, run.used));
    RequestFits(lim.cfg, h, run.used);
    n, r := h + run.used, Step(tok, done, sys.buf[..h], sys.buf[h..h + run.used], env);
    ScannedCalls(tok, lim, sys, done, f, h, run.used, env);
  }

  lemma {:induction false} ScannedCalls(tok: Tokenizer, lim: Limits, sys: Sys, done: Conn, f: Facts, h: nat, n: nat,
                                        env: Env)
    requires Sound(tok) && HasHead(tok, lim, sys.eaten + sys.buf, f) && done.index == IndexOf(f) && done.phase.ScanDone?
    requires C.Run((sys.eaten + sys.buf)[f.len..], C.INIT).verdict == C.Complete
    requires n == C.Run((sys.eaten + sys.buf)[f.len..], C.INIT).used && h + n <= |sys.buf|
    requires sys.buf[h..] == (sys.eaten + sys.buf)[f.len..]
             && sys.eaten + sys.buf[..h] == (sys.eaten + sys.buf)[..f.len]
    requires (match done.phase.stash case Some(head) => head case None => sys.buf[..h]) ==
             (sys.eaten + sys.buf)[..f.len]
    ensures var r := Step(tok, done, sys.buf[..h], sys.buf[h..h + n], env);
            r.calls != [] && Final(r) && (Continues(env) ==> Goes(r))
  {
    hide C.Run, TrueView, Sound, R.Decode, Step, CallWhole;
    var wire := sys.eaten + sys.buf;
    var region := wire[f.len..];
    var body := region[..n];
    SplitRegion(sys.eaten, sys.buf, f.len, h, n);
    R.DeclaredExtentDecodes(region);
    ScannedStepIs(tok, done, sys.buf[..h], body, env);
    var d := R.Decode(body).value;
    FinalCalls(tok, lim, done.(phase := AtHead), wire, f, d.entity, d.trailers, Whole, env.first, env.drainingAfter);
  }

  /** One scan of the body region completes at the end of the request. */
  lemma {:induction false} RegionRuns(wire: bytes, w: bytes, f: Facts)
    requires w <= wire && f.len <= |w| && R.Decode(w[f.len..]).Some?
    ensures var r := C.Run(wire[f.len..], C.INIT);
            r.verdict == C.Complete && r.used == |w| - f.len > 0 && r.end.decoded == |R.Decode(w[f.len..]).value.entity|
  {
    hide C.TakeTurn, R.Decode;
    var body := w[f.len..];
    R.DecodeIsRun(body);
    assert wire == w + wire[|w|..];
    DropAppend(w, wire[|w|..], f.len);
    C.RunExtends(body, wire[|w|..], C.INIT);
    if body == [] {
      C.RunNothing();
    }
  }

  lemma {:induction false} BodyProgress(tok: Tokenizer, lim: Limits, sys: Sys, w: bytes, f: Facts, env: Env)
    returns (n: nat, r: Result)
    requires Ready(tok, lim, sys, w, f) && sys.conn.phase.ExpectBody?
    requires Mid(tok, lim, sys.conn, sys.eaten + sys.buf, sys.log, f)
    requires PhaseOk(tok, lim, sys.conn.phase, sys.eaten, sys.eaten + sys.buf, sys.log, f)
    ensures Heard(tok, lim, sys, w, env, n, r)
  {
    hide Inv, PhaseOk, Heard, Admissible, Sound, F.ScanStep, CallsRead, Measured, TrueView;
    SameCap(tok, lim, sys);
    ExpectIs(tok, lim, sys.conn.phase, sys.eaten, sys.eaten + sys.buf, sys.log, f);
    match f.body.kind
    case ChunkFramed =>
      var scanning := sys.conn.(phase := ScanBody(Some(sys.conn.phase.head), 0, SCAN_START));
      n, r := ScanProgress(tok, lim, sys, scanning, w, f, env);
    case Sized(len) =>
      n, r := SizedProgress(tok, lim, sys, w, f, len, env);
  }

  /** The invited body is the one the head declared, and a chunked one is scanned from its start. */
  lemma {:induction false} ExpectIs(tok: Tokenizer, lim: Limits, phase: Phase, eaten: bytes, wire: bytes,
                                    log: seq<Event>, f: Facts)
    requires f.len <= |wire| && f.body.BodyOk? && eaten <= wire && phase.ExpectBody?
    requires PhaseOk(tok, lim, phase, eaten, wire, log, f)
    ensures phase.kind == f.body.kind
    ensures f.body.kind == ChunkFramed ==>
              PhaseOk(tok, lim, ScanBody(Some(phase.head), 0, SCAN_START), eaten, wire, log, f)
  {
    ScanFromStart(wire[f.len..]);
    hide ScannedTo, StreamAt, OwesEnd, Served, Holds;
  }

  lemma {:induction false} SizedProgress(tok: Tokenizer, lim: Limits, sys: Sys, w: bytes, f: Facts, len: nat, env: Env)
    returns (n: nat, r: Result)
    requires Ready(tok, lim, sys, w, f) && sys.conn.phase.ExpectBody? && f.body.kind == Sized(len)
    requires Mid(tok, lim, sys.conn, sys.eaten + sys.buf, sys.log, f)
    requires PhaseOk(tok, lim, sys.conn.phase, sys.eaten, sys.eaten + sys.buf, sys.log, f)
    ensures Heard(tok, lim, sys, w, env, n, r)
  {
    hide Inv, CallsRead, TrueView, Sound, BufferNeeded, Measured, Step, CallWhole, Served, StreamAt, OwesEnd,
         Holds, LastCall, Interims, Legal;
    var conn, wire := sys.conn, sys.eaten + sys.buf;
    n := len;
    assert |sys.eaten| + len == |w|;
    RequestFits(lim.cfg, 0, len);
    r := Step(tok, conn, sys.buf[..0], sys.buf[0..len], env);
    StepExpect(tok, conn, sys.buf[..0], sys.buf[0..len], env);
    FinalCalls(tok, lim, conn.(phase := AtHead), wire, f, sys.buf[0..len], [], Whole, env.first, env.drainingAfter);
  }

  lemma {:induction false} OpenCalls(tok: Tokenizer, lim: Limits, conn: Conn, wire: bytes, f: Facts, kind: BodyKind,
                                     env: Env)
    requires Sound(tok) && HasHead(tok, lim, wire, f) && conn.index == IndexOf(f) && !env.draining
    ensures var r := OpenStep(tok, conn, wire[..f.len], f.expects, kind, env);
            r.calls != [] && !Final(r) && (Continues(env) ==> Goes(r))
  {
    AlwaysCalls(tok, lim, conn, wire, f, [], [], Open, false, env.first, env.drainingAfter);
    ViewFound(tok, lim, conn, wire, f);
    var d := Dispatch(Open, wire[..f.len], TrueView(wire, f), [], [], false);
    if env.first.Continue? {
      GoesOn(tok, conn, d, env.drainingAfter);
    }
    hide Call, TrueView, Sound, HeadView;
  }

  lemma {:induction false} HeadProgress(tok: Tokenizer, lim: Limits, sys: Sys, w: bytes, f: Facts, env: Env)
    returns (n: nat, r: Result)
    requires Ready(tok, lim, sys, w, f) && sys.conn.phase == AtHead && !env.draining
    ensures Heard(tok, lim, sys, w, env, n, r)
  {
    hide Inv, Legal, PastOk, Traced, Over, Sound, HasHead, Admits, BufferNeeded, F.Frame, F.BodyStep, Heard, Mid;
    SameCap(tok, lim, sys);
    ReadyHead(tok, lim, sys, w, f);
    var conn := sys.conn.(index := IndexOf(f));
    HeadIsMid(tok, lim, conn, sys.buf, f);
    FrameIsBody(tok, lim, sys.conn, sys.buf, f);
    n, r := FreshProgress(tok, lim, sys, conn, w, f, env);
  }

  lemma {:induction false} ReadyHead(tok: Tokenizer, lim: Limits, sys: Sys, w: bytes, f: Facts)
    requires Ready(tok, lim, sys, w, f) && sys.conn.phase == AtHead
    ensures sys.eaten == [] && sys.log == [] && HasHead(tok, lim, sys.buf, f) && 0 < f.len
  {
    hide Legal, PastOk, Traced, Over, Admits, BufferNeeded, IsBody;
    Empties(sys.buf);
    assert sys.buf == w + sys.buf[|w|..];
    assert tok.parse(w + sys.buf[|w|..]) == tok.parse(w);
    assert ParseOk(tok, sys.buf);
  }

  lemma {:induction false} HeadIsMid(tok: Tokenizer, lim: Limits, conn: Conn, buf: bytes, f: Facts)
    requires HasHead(tok, lim, buf, f) && conn.index == IndexOf(f)
    ensures Mid(tok, lim, conn, buf, [], f)
  {
    hide HasHead;
    FirstLog();
  }

  lemma {:induction false} FrameIsBody(tok: Tokenizer, lim: Limits, conn: Conn, buf: bytes, f: Facts)
    requires HasHead(tok, lim, buf, f) && conn.phase == AtHead
    ensures F.Frame(tok, conn, buf, lim.cfg) == F.BodyStep(conn.(index := IndexOf(f)), buf, lim.cfg, f, f.body.kind)
  {
    hide F.BodyStep, F.MethodIsHead;
  }

  lemma {:induction false} FreshProgress(tok: Tokenizer, lim: Limits, sys: Sys, conn: Conn, w: bytes, f: Facts,
                                         env: Env)
    returns (n: nat, r: Result)
    requires Ready(tok, lim, sys, w, f) && Fresh(tok, lim, sys, conn, f) && !env.draining && !sys.conn.phase.Parked?
    requires F.Frame(tok, sys.conn, sys.buf, lim.cfg) == F.BodyStep(conn, sys.buf, lim.cfg, f, f.body.kind)
    ensures Heard(tok, lim, sys, w, env, n, r)
  {
    hide Inv, C.Run, CallsRead, TrueView, Sound, BufferNeeded, Measured, F.ScanStep, F.Frame, Step, F.MethodIsHead,
         Final, Goes;
    var kind, wire, head := f.body.kind, sys.buf, sys.buf[..f.len];
    RequestFits(lim.cfg, f.len, 0);
    if Windowed(lim, kind) {
      var stream := conn.(phase := StreamOpen(head, f.expects, kind));
      assert F.BodyStep(conn, sys.buf, lim.cfg, f, kind) == F.Framed(stream, Framing.Complete(f.len, 0));
      n, r := f.len, Step(tok, stream, sys.buf[..f.len], sys.buf[f.len..f.len + 0], env);
      StepOpen(tok, stream, sys.buf[..f.len], sys.buf[f.len..f.len + 0], env);
      OpenCalls(tok, lim, conn, wire, f, kind, env);
    } else if Awaits(f, kind) {
      var invited := conn.(phase := ExpectHead(head, kind));
      assert F.BodyStep(conn, sys.buf, lim.cfg, f, kind) == F.Framed(invited, Framing.Complete(f.len, 0));
      n, r := f.len, Step(tok, invited, sys.buf[..f.len], sys.buf[f.len..f.len + 0], env);
      StepInvite(tok, invited, sys.buf[..f.len], sys.buf[f.len..f.len + 0], env);
    } else if kind.Sized? {
      assert F.BodyStep(conn, sys.buf, lim.cfg, f, kind) == F.Framed(conn, Framing.Complete(f.len, kind.len));
      RequestFits(lim.cfg, f.len, kind.len);
      n, r := f.len + kind.len, Step(tok, conn, sys.buf[..f.len], sys.buf[f.len..f.len + kind.len], env);
      StepWhole(tok, conn, sys.buf[..f.len], sys.buf[f.len..f.len + kind.len], env);
      FinalCalls(tok, lim, conn, wire, f, sys.buf[f.len..f.len + kind.len], [], Whole, env.first, env.drainingAfter);
      hide CallWhole;
      assert Final(r) && (Continues(env) ==> Goes(r)) by { IsFinal(r, env); }
    } else {
      var scanning := conn.(phase := ScanBody(None, f.len, SCAN_START));
      ScanFromStart(sys.buf[f.len..]);
      hide ScannedTo;
      Empties(sys.buf);
      assert PhaseOk(tok, lim, scanning.phase, [], sys.buf, [], f);
      n, r := ScanProgress(tok, lim, sys, scanning, w, f, env);
    }
  }

  lemma {:induction false} StepInvite(tok: Tokenizer, conn: Conn, header: bytes, body: bytes, env: Env)
    requires conn.phase.ExpectHead? && !env.draining
    ensures var r := Step(tok, conn, header, body, env);
            r.resp == Reply(Interim) && !Final(r) && Goes(r)
  {
  }

  lemma {:induction false} IsFinal(r: Result, env: Env)
    requires |r.calls| == 1 && (r.calls[0].stage == Whole || r.calls[0].stage == End)
    requires env.first.Continue? ==> r.resp == Close
    ensures Final(r) && (Continues(env) ==> Goes(r))
  {
  }

  lemma {:induction false} StepWhole(tok: Tokenizer, conn: Conn, header: bytes, body: bytes, env: Env)
    requires conn.phase.AtHead?
    ensures Step(tok, conn, header, body, env) == CallWhole(tok, conn, header, body, [], Whole, env.first,
                                                            env.drainingAfter)
  {
    hide CallWhole;
  }

  /**
    In every reachable state, once all of a request within the limits has arrived on a connection that is
    neither parked nor draining, the next pump hands some of it, and nothing of the next request, to the
    handler or invites its body: the codec itself refuses nothing.
  */
  lemma {:induction false} NeverRefused(tok: Tokenizer, lim: Limits, sys: Sys, w: bytes, f: Facts, env: Env)
    returns (n: nat, r: Result)
    requires Ready(tok, lim, sys, w, f) && !sys.conn.phase.Parked? && !env.draining
    ensures Heard(tok, lim, sys, w, env, n, r)
  {
    hide Legal, PastOk, Traced, Over, Sound, StreamAt, Interims, CallsRead, TrueView, Measured, IsRequest, Admits,
         BufferNeeded;
    var wire, phase := sys.eaten + sys.buf, sys.conn.phase;
    if phase.AtHead? {
      n, r := HeadProgress(tok, lim, sys, w, f, env);
    } else {
      var g :| Mid(tok, lim, sys.conn, wire, sys.log, g) && PhaseOk(tok, lim, phase, sys.eaten, wire, sys.log, g);
      RequestHead(tok, lim, w, f);
      SameHead(tok, lim, wire, w, f, g);
      hide Inv;
      match phase
      case ExpectBody(_, _) => n, r := BodyProgress(tok, lim, sys, w, f, env);
      case ScanBody(_, _, _) => n, r := ScanningProgress(tok, lim, sys, w, f, env);
      case StreamKnown(_, _) => n, r := KnownProgress(tok, lim, sys, w, f, env);
      case StreamBody(_, _, _, _) => n, r := ChunkProgress(tok, lim, sys, w, f, env);
    }
  }

  lemma {:induction false} RequestHead(tok: Tokenizer, lim: Limits, w: bytes, f: Facts)
    requires IsRequest(tok, lim, w, f)
    ensures HasHead(tok, lim, w, f)
  {
  }

  lemma {:induction false} ScanningProgress(tok: Tokenizer, lim: Limits, sys: Sys, w: bytes, f: Facts, env: Env)
    returns (n: nat, r: Result)
    requires Ready(tok, lim, sys, w, f) && sys.conn.phase.ScanBody?
    requires Mid(tok, lim, sys.conn, sys.eaten + sys.buf, sys.log, f)
    requires PhaseOk(tok, lim, sys.conn.phase, sys.eaten, sys.eaten + sys.buf, sys.log, f)
    ensures Heard(tok, lim, sys, w, env, n, r)
  {
    SameCap(tok, lim, sys);
    hide F.ScanStep, Mid, PhaseOk, Ready, Heard;
    n, r := ScanProgress(tok, lim, sys, sys.conn, w, f, env);
  }
}
