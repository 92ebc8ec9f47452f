/** How much a connection ever has to hold. */
module ConnectionBounds {
  import opened Bytes
  import opened HttpTypes
  import opened Glue
  import opened Connection
  import opened ConnectionInvariant
  import opened ConnectionSteps
  import opened ConnectionStreams
  import opened ConnectionSafety
  import F = Framer
  import C = Chunked
  import W = ChunkWalk
  import G = ChunkedGrammar

  /** The published bound: waiting never needs more than it, and no message is declared empty or larger. */
  ghost predicate Bounded(lim: Limits, buf: bytes, framed: F.Framed) {
    match framed.framing
    case Complete(h, b) => framed.conn.phase.Fail? || (0 < h + b && F.SatAdd(h, b) <= BufferNeeded(lim.cfg))
    case _ => F.SatAdd(|buf|, 0) <= BufferNeeded(lim.cfg)
  }

  /** Head, body, framing overhead and the one line a waiting scan has not consumed. */
  lemma {:induction false} ScanFits(cfg: Config, head: nat, used: nat, unread: nat)
    requires head <= cfg.maxHead && used <= F.WireCap(cfg) && unread <= C.TRAILER_LINE_MAX + 1
    ensures F.SatAdd(head + used + unread, 0) <= BufferNeeded(cfg)
    ensures F.SatAdd(head, used) <= BufferNeeded(cfg)
  {
  }

  lemma {:induction false} WalkFits(cfg: Config, n: nat)
    requires n <= F.STREAM_WINDOW + C.CHUNK_LINE_MAX + 4
    ensures F.SatAdd(n, 0) <= BufferNeeded(cfg)
    ensures W.TERMINAL_MAX + C.TRAILER_LINE_MAX + 1 <= F.STREAM_WINDOW
  {
  }

  /** A scan that waits has taken in what the caps allow, and holds back one line at most. */
  lemma {:induction false} ScanBound(tok: Tokenizer, lim: Limits, conn: Conn, eaten: bytes, buf: bytes, log: seq<Event>,
                                     f: Facts)
    requires HasHead(tok, lim, eaten + buf, f) && conn.phase.ScanBody?
    requires PhaseOk(tok, lim, conn.phase, eaten, eaten + buf, log, f)
    ensures Bounded(lim, buf, F.ScanStep(conn, buf, lim.cfg))
  {
    hide C.Run, F.ScanStep, ScannedTo, BufferNeeded;
    var wire := eaten + buf;
    var region := wire[f.len..];
    var k :| ScannedTo(region, k, conn.phase.scan);
    Region(tok, lim, conn.phase, eaten, buf, log, f);
    ScanDecides(conn, buf, lim.cfg, region, k);
    assert conn.phase.headLen <= lim.cfg.maxHead;
    hide PhaseOk;
    var r := C.Run(region, C.INIT);
    if r.verdict == C.More {
      W.InFlightLine(region, C.INIT);
      if r.used <= F.WireCap(lim.cfg) {
        ScanFits(lim.cfg, conn.phase.headLen, r.used, |region| - r.used);
      }
    } else if r.verdict == C.Complete {
      CompleteIsSome(region);
      if r.used <= F.WireCap(lim.cfg) {
        ScanFits(lim.cfg, conn.phase.headLen, r.used, 0);
      }
    }
  }

  lemma {:induction false} CompleteIsSome(region: bytes)
    requires C.Run(region, C.INIT).verdict == C.Complete
    ensures 0 < C.Run(region, C.INIT).used
  {
    assert C.TakeTurn(region, C.INIT).stop.None?;
  }

  lemma {:induction false} HeadBound(tok: Tokenizer, lim: Limits, conn: Conn, buf: bytes)
    requires Sound(tok) && conn.phase.AtHead? && conn.streamCap == lim.streamCap
    ensures Bounded(lim, buf, F.HeadStep(tok, conn, buf, lim.cfg))
  {
    assert ParseOk(tok, buf);
    hide F.ScanStep, BufferNeeded, Sound, F.MethodIsHead, F.SatAdd;
    match tok.parse(buf)
    case Rejected(_) =>
    case Partial =>
      if |buf| <= lim.cfg.maxHead {
        ScanFits(lim.cfg, |buf|, 0, 0);
      }
    case Parsed(f) =>
      if f.len <= lim.cfg.maxHead && f.body.BodyOk? {
        hide F.BodyStep;
        BodyBound(tok, lim, conn.(index := IndexOf(f)), buf, f);
      }
  }

  lemma {:induction false} BodyBound(tok: Tokenizer, lim: Limits, conn: Conn, buf: bytes, f: Facts)
    requires HasHead(tok, lim, buf, f) && 0 < f.len && conn.phase.AtHead? && conn.streamCap == lim.streamCap
    requires f.body.kind.Sized? ==> f.body.kind.len <= USIZE_MAX
    ensures Bounded(lim, buf, F.BodyStep(conn, buf, lim.cfg, f, f.body.kind))
  {
    hide F.ScanStep, BufferNeeded, F.MethodIsHead, F.SatAdd;
    var kind := f.body.kind;
    ScanFits(lim.cfg, f.len, 0, 0);
    if kind.Sized? && kind.len <= lim.cfg.maxBody {
      SizedWithin(lim.cfg, kind.len);
      ScanFits(lim.cfg, f.len, kind.len, 0);
    }
    if kind.ChunkFramed? && lim.streamCap.None? && !f.expects {
      FirstScanBound(tok, lim, conn, buf, f);
    }
  }

  lemma {:induction false} SizedWithin(cfg: Config, n: nat)
    requires n <= cfg.maxBody && n <= USIZE_MAX
    ensures n <= F.WireCap(cfg)
  {
  }

  lemma {:induction false} FirstScanBound(tok: Tokenizer, lim: Limits, conn: Conn, buf: bytes, f: Facts)
    requires HasHead(tok, lim, buf, f) && f.body.kind == ChunkFramed && !f.expects && lim.streamCap.None?
    ensures Bounded(lim, buf, F.ScanStep(conn.(phase := ScanBody(None, f.len, SCAN_START)), buf, lim.cfg))
  {
    hide F.ScanStep, C.Run, Bounded;
    ScanFromStart(buf[f.len..]);
    hide ScannedTo;
    var scanning := conn.(phase := ScanBody(None, f.len, SCAN_START));
    assert PhaseOk(tok, lim, scanning.phase, [], [] + buf, [], f) by { Empties(buf); }
    Empties(buf);
    ScanBound(tok, lim, scanning, [], buf, [], f);
  }

  lemma {:induction false} ExpectBound(tok: Tokenizer, lim: Limits, conn: Conn, eaten: bytes, buf: bytes,
                                       log: seq<Event>, f: Facts)
    requires HasHead(tok, lim, eaten + buf, f) && conn.phase.ExpectBody? && conn.streamCap == lim.streamCap
    requires PhaseOk(tok, lim, conn.phase, eaten, eaten + buf, log, f)
    requires f.body.kind.Sized? ==> f.body.kind.len <= USIZE_MAX
    ensures Bounded(lim, buf, F.Frame(tok, conn, buf, lim.cfg))
  {
    hide F.ScanStep, C.Run, BufferNeeded;
    match f.body.kind
    case Sized(n) =>
      ScanFits(lim.cfg, 0, n, 0);
    case ChunkFramed =>
      ScanFromStart((eaten + buf)[f.len..]);
      hide ScannedTo, Bounded;
      var scanning := conn.(phase := ScanBody(Some(conn.phase.head), 0, SCAN_START));
      assert PhaseOk(tok, lim, scanning.phase, eaten, eaten + buf, log, f);
      ScanBound(tok, lim, scanning, eaten, buf, log, f);
  }

  lemma {:induction false} StreamBound(lim: Limits, conn: Conn, buf: bytes)
    requires conn.phase.StreamBody? || (conn.phase.StreamKnown? && conn.phase.remaining > 0)
    ensures Bounded(lim, buf, if conn.phase.StreamKnown? then F.KnownStep(conn, buf) else F.StreamStep(conn, buf))
  {
    hide C.Run, W.NextChunk, BufferNeeded;
    WalkFits(lim.cfg, F.STREAM_WINDOW + C.CHUNK_LINE_MAX + 4);
    WalkFits(lim.cfg, F.STREAM_WINDOW);
    if conn.phase.StreamBody? && conn.phase.chunkLeft == 0 {
      W.WalkBounds(buf, conn.phase.afterPayload);
      if W.NextChunk(buf, conn.phase.afterPayload).ChunkAt? {
        W.ChunkAgrees(buf, 0, conn.phase.afterPayload);
      } else if W.NextChunk(buf, conn.phase.afterPayload).LastAt? {
        W.LastAgrees(buf, 0, conn.phase.afterPayload);
      }
    }
  }

  /** In every reachable phase that is not parked, the framer keeps to the published bound. */
  lemma {:induction false} BufferBound(tok: Tokenizer, lim: Limits, actions: seq<Action>)
    requires Sound(tok)
    ensures var sys := Exec(tok, lim, Start(lim), actions);
            sys.open && !sys.conn.phase.Parked? ==> Bounded(lim, sys.buf, F.Frame(tok, sys.conn, sys.buf, lim.cfg))
  {
    hide Exec;
    EveryRun(tok, lim, actions);
    var sys := Exec(tok, lim, Start(lim), actions);
    if sys.open && !sys.conn.phase.Parked? {
      StateBound(tok, lim, sys);
    }
  }

  lemma {:induction false} StateBound(tok: Tokenizer, lim: Limits, sys: Sys)
    requires Sound(tok) && Inv(tok, lim, sys) && sys.open && !sys.conn.phase.Parked?
    ensures Bounded(lim, sys.buf, F.Frame(tok, sys.conn, sys.buf, lim.cfg))
  {
    hide Legal, PastOk, Traced, Over, Interims, LastCall, Windows, CallsRead, TrueView, Measured, Bounded, F.HeadStep,
         F.ScanStep, F.KnownStep, F.StreamStep, KnownAt, ChunkedAt, ScannedTo;
    var wire, phase := sys.eaten + sys.buf, sys.conn.phase;
    if phase.AtHead? {
      HeadBound(tok, lim, sys.conn, sys.buf);
    } else {
      var f :| Mid(tok, lim, sys.conn, wire, sys.log, f) && PhaseOk(tok, lim, phase, sys.eaten, wire, sys.log, f);
      assert ParseOk(tok, wire);
      match phase
      case ExpectBody(_, _) => ExpectBound(tok, lim, sys.conn, sys.eaten, sys.buf, sys.log, f);
      case ScanBody(_, _, _) => ScanBound(tok, lim, sys.conn, sys.eaten, sys.buf, sys.log, f);
      case _ => StreamBound(lim, sys.conn, sys.buf);
    }
  }

  // ----- which stream caps bind

  /** After these actions a chunked body is being streamed, and its next chunk is refused for the cap. */
  ghost predicate RefusedForCap(tok: Tokenizer, lim: Limits, actions: seq<Action>) {
    var sys := Exec(tok, lim, Start(lim), actions);
    && sys.open && sys.conn.phase.StreamBody?
    && F.Frame(tok, sys.conn, sys.buf, lim.cfg).conn.phase.Fail?
    && F.Frame(tok, sys.conn, sys.buf, lim.cfg).conn.phase.status == 413
  }

  function Sixteens(k: nat): nat {
    if k == 0 then 1 else 16 * Sixteens(k - 1)
  }

  /** A number in `k` hex digits. */
  function HexOf(n: nat, k: nat): bytes {
    if k == 0 then [] else HexOf(n / 16, k - 1) + [G.LOWER_DIGITS[n % 16] as int]
  }

  lemma {:induction false} HexOfReads(n: nat, k: nat)
    requires n < Sixteens(k)
    ensures |HexOf(n, k)| == k && G.Denotes(HexOf(n, k), n)
  {
    if k > 0 {
      HexOfReads(n / 16, k - 1);
      assert HexOf(n, k)[..k - 1] == HexOf(n / 16, k - 1);
    }
  }

  lemma {:induction false} AWord()
    ensures Sixteens(16) == USIZE_MAX + 1
  {
    assert Sixteens(4) == 0x1_0000;
    assert Sixteens(8) == 0x1_0000_0000;
    assert Sixteens(12) == 0x1_0000_0000_0000;
  }

  /** Every chunk size has a size line. */
  lemma {:induction false} ChunkOf(n: nat) returns (line: bytes)
    requires 0 < n <= USIZE_MAX
    ensures W.NextChunk(line, false) == W.ChunkAt(|line|, n)
  {
    AWord();
    HexOfReads(n, 16);
    var digits := HexOf(n, 16);
    hide HexOf, G.Denotes, HasBareCrLf;
    G.NumeralIsPlain(digits, n);
    assert digits == digits + [] + [];
    G.SizeLineReads(digits, n, digits, [], []);
    W.HeaderLocated(digits, n, [], false);
    line := digits + CRLF;
    assert W.Closing(false) + (digits + CRLF + []) == line;
  }

  /** A chunked body streamed from its head on: the handler reads on, and the stream stands before its first chunk. */
  lemma {:induction false} OpensStream(tok: Tokenizer, lim: Limits, head: bytes, more: bytes, f: Facts)
    requires Sound(tok) && lim.streamCap.Some? && HasHead(tok, lim, head, f) && f.len == |head| <= lim.reactorCap
    requires f.body.kind == ChunkFramed
    ensures var env := Env(false, false, Continue, Continue, Redrive);
            var sys := Exec(tok, lim, Start(lim), [Arrive(head + more), Pump(env)]);
            sys.open && sys.conn == Conn(StreamBody(head, 0, false, 0), lim.streamCap, IndexOf(f)) && sys.buf == more
  {
    var env := Env(false, false, Continue, Continue, Redrive);
    var buf, start := head + more, Start(lim);
    var sys := start.(buf := buf);
    assert [] + buf == buf;
    ExecTwo(tok, lim, start, Arrive(buf), Pump(env));
    assert Act(tok, lim, start, Arrive(buf)) == sys && Act(tok, lim, sys, Pump(env)) == PumpOnce(tok, lim, sys, env);
    hide Exec, Act, Deliver, Step, Record;
    assert tok.parse(head + more) == tok.parse(head) && ParseOk(tok, head);
    Halves(head, more);
    var stream := Conn(StreamOpen(head, f.expects, ChunkFramed), lim.streamCap, IndexOf(f));
    OpenFrames(tok, lim, sys.conn, head, more, f);
    hide F.Frame;
    assert buf[f.len..f.len + 0] == [];
    DeliverWhole(tok, lim, sys, stream, f.len, 0, env);
    StepOpen(tok, stream, head, [], env);
    OpenGoes(tok, lim, stream.(phase := AtHead), head, f, env);
    WasInvited(sys, f.len, Step(tok, stream, head, [], env), f.expects);
  }

  lemma {:induction false} WasInvited(sys: Sys, n: nat, r: Result, expects: bool)
    requires n <= |sys.buf| && r.resp == Invite(expects)
    ensures var next := Record(sys, n, r); next.open && next.conn == r.conn && next.buf == sys.buf[n..]
  {
    hide Events;
  }

  lemma {:induction false} OpenFrames(tok: Tokenizer, lim: Limits, conn: Conn, head: bytes, more: bytes, f: Facts)
    requires HasHead(tok, lim, head, f) && f.len == |head| && f.body.kind == ChunkFramed && lim.streamCap.Some?
    requires tok.parse(head + more) == tok.parse(head) && conn == Conn(AtHead, lim.streamCap, None)
    ensures F.Frame(tok, conn, head + more, lim.cfg) ==
            F.Framed(Conn(StreamOpen(head, f.expects, ChunkFramed), lim.streamCap, IndexOf(f)),
                     Framing.Complete(f.len, 0))
  {
    hide F.MethodIsHead;
    Halves(head, more);
  }

  lemma {:induction false} OpenGoes(tok: Tokenizer, lim: Limits, conn: Conn, head: bytes, f: Facts, env: Env)
    requires Sound(tok) && HasHead(tok, lim, head, f) && f.len == |head| && conn.index == IndexOf(f)
    requires !env.draining && env.first.Continue?
    ensures var r := OpenStep(tok, conn, head, f.expects, ChunkFramed, env);
            r.conn == conn.(phase := StreamBody(head, 0, false, 0)) && r.resp == Invite(f.expects)
  {
    assert head[..f.len] == head;
    ViewFound(tok, lim, conn, head, f);
    hide HeadView, Sound;
  }

  /**
    The count of bytes streamed saturates, so some run has a chunk refused for the cap if and only if the cap is
    below the largest machine word.
  */
  lemma {:induction false} CapBindsIff(tok: Tokenizer, lim: Limits, head: bytes, f: Facts)
    requires Sound(tok) && lim.streamCap.Some? && HasHead(tok, lim, head, f) && f.len == |head| <= lim.reactorCap
    requires f.body.kind == ChunkFramed
    ensures (exists actions :: RefusedForCap(tok, lim, actions)) <==> lim.streamCap.value < USIZE_MAX
  {
    hide RefusedForCap;
    if lim.streamCap.value < USIZE_MAX {
      LowCapRefuses(tok, lim, head, f);
    } else {
      forall actions
        ensures !RefusedForCap(tok, lim, actions)
      {
        TopCapRefusesNothing(tok, lim, actions);
      }
    }
  }

  lemma {:induction false} LowCapRefuses(tok: Tokenizer, lim: Limits, head: bytes, f: Facts)
    requires Sound(tok) && HasHead(tok, lim, head, f) && f.len == |head| <= lim.reactorCap
    requires f.body.kind == ChunkFramed && lim.streamCap.Some? && lim.streamCap.value < USIZE_MAX
    ensures exists actions :: RefusedForCap(tok, lim, actions)
  {
    var line := ChunkOf(lim.streamCap.value + 1);
    OpensStream(tok, lim, head, line, f);
    hide Exec, W.NextChunk, F.MethodIsHead, Sound, HasHead;
    var env := Env(false, false, Continue, Continue, Redrive);
    assert RefusedForCap(tok, lim, [Arrive(head + line), Pump(env)]);
  }

  lemma {:induction false} TopCapRefusesNothing(tok: Tokenizer, lim: Limits, actions: seq<Action>)
    requires Sound(tok) && lim.streamCap.Some? && lim.streamCap.value >= USIZE_MAX
    ensures !RefusedForCap(tok, lim, actions)
  {
    var sys := Exec(tok, lim, Start(lim), actions);
    EveryRun(tok, lim, actions);
    SameCap(tok, lim, sys);
    hide Exec, Inv, Sound, Traced, PastOk, Legal, Over, F.StreamStep;
    if sys.conn.phase.StreamBody? {
      TopCapLetsPass(sys.conn, sys.buf);
    }
  }

  lemma {:induction false} TopCapLetsPass(conn: Conn, buf: bytes)
    requires conn.phase.StreamBody? && conn.streamCap.Some? && conn.streamCap.value >= USIZE_MAX
    ensures var framed := F.StreamStep(conn, buf); !(framed.conn.phase.Fail? && framed.conn.phase.status == 413)
  {
    hide W.NextChunk, F.MethodIsHead, C.Run;
    var after := conn.phase.afterPayload;
    W.VerdictAgrees(buf, 0, after);
    C.RunStops(buf, W.Boundary(0, after));
  }
}
