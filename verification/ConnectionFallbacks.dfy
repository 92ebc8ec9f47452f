/** The arms of the framer and the glue that are there in case of a codec bug: no run reaches them. */
module ConnectionFallbacks {
  import opened Bytes
  import opened HttpTypes
  import opened Glue
  import opened Connection
  import opened ConnectionInvariant
  import opened ConnectionSteps
  import opened ConnectionSafety
  import F = Framer
  import C = Chunked
  import W = ChunkWalk
  import R = ChunkedReaders

  /**
    A framing verdict the glue can act on without falling back: no failure is a codec bug, a scan is
    delivered only when done, its body decodes, the size line in front of a window reads as the chunk
    the window is cut from, and a terminal block has trailers to read.
  */
  ghost predicate Sane(buf: bytes, framed: F.Framed) {
    && (framed.conn.phase.Fail? ==> framed.conn.phase.status != BUG)
    && (framed.framing.Complete? ==>
          var h, b := framed.framing.headerLen, framed.framing.bodyLen;
          match framed.conn.phase
          case ScanBody(_, _, _) => false
          case ScanDone(_) => h + b <= |buf| && R.Decode(buf[h..h + b]).Some?
          case StreamBody(_, left, after, _) =>
            left == 0 ==>
              && h <= |buf| && W.NextChunk(buf[..h], after).ChunkAt?
              && W.NextChunk(buf[..h], after).framing == h && b <= W.NextChunk(buf[..h], after).payload
          case StreamDone(_, at) => at <= h <= |buf| && R.Decode(buf[..h][at..]).Some?
          case _ => true)
  }

  lemma {:induction false} ScanIsSane(conn: Conn, buf: bytes, cfg: Config, k: nat)
    requires conn.phase.ScanBody? && conn.phase.headLen <= |buf|
    requires ScannedTo(buf[conn.phase.headLen..], k, conn.phase.scan)
    ensures Sane(buf, F.ScanStep(conn, buf, cfg))
  {
    hide C.Run, F.ScanStep, ScannedTo, R.Decode;
    var h := conn.phase.headLen;
    var region := buf[h..];
    ScanDecides(conn, buf, cfg, region, k);
    if C.Run(region, C.INIT).verdict == C.Complete {
      var n := C.Run(region, C.INIT).used;
      R.DeclaredExtentDecodes(region);
      assert buf[h..h + n] == region[..n];
    }
  }

  lemma {:induction false} StreamIsSane(conn: Conn, buf: bytes)
    requires conn.phase.StreamBody?
    ensures Sane(buf, F.StreamStep(conn, buf))
  {
    hide C.Run, W.NextChunk, R.Decode, F.MethodIsHead;
    var after := conn.phase.afterPayload;
    match W.NextChunk(buf, after)
    case Wait =>
    case Malformed(status) => RefusedPlainly(buf, after);
    case ChunkAt(_, _) => W.ChunkAgrees(buf, 0, after);
    case LastAt(n) =>
      W.LastAgrees(buf, 0, after);
      R.DecodeIsRun(buf[..n][|W.Closing(after)|..]);
  }

  lemma {:induction false} RefusedPlainly(buf: bytes, after: bool)
    requires W.NextChunk(buf, after).Malformed?
    ensures W.NextChunk(buf, after).status != BUG
  {
    hide C.Run, W.NextChunk;
    W.VerdictAgrees(buf, 0, after);
    C.RunStops(buf, W.Boundary(0, after));
  }

  lemma {:induction false} HeadIsSane(tok: Tokenizer, conn: Conn, buf: bytes, cfg: Config)
    requires Sound(tok) && conn.phase == AtHead
    ensures Sane(buf, F.HeadStep(tok, conn, buf, cfg))
  {
    hide F.MethodIsHead, F.ScanStep, R.Decode, W.NextChunk;
    assert ParseOk(tok, buf);
    match tok.parse(buf)
    case Rejected(_) =>
    case Partial =>
    case Parsed(f) =>
      var indexed := conn.(index := IndexOf(f));
      if f.len <= cfg.maxHead && f.body == BodyOk(ChunkFramed) && conn.streamCap.None? && !f.expects {
        ScanFromStart(buf[f.len..]);
        ScanIsSane(indexed.(phase := ScanBody(None, f.len, SCAN_START)), buf, cfg, 0);
      }
  }

  lemma {:induction false} StateIsSane(tok: Tokenizer, lim: Limits, sys: Sys)
    requires Sound(tok) && Inv(tok, lim, sys) && sys.open && !sys.conn.phase.Parked?
    ensures Sane(sys.buf, F.Frame(tok, sys.conn, sys.buf, lim.cfg))
  {
    hide Legal, PastOk, Traced, Over, Sound, Interims, CallsRead, TrueView, Measured, F.HeadStep, F.ScanStep,
         F.StreamStep, Sane, KnownAt, ChunkedAt;
    var wire, conn, phase := sys.eaten + sys.buf, sys.conn, sys.conn.phase;
    if phase.AtHead? {
      HeadIsSane(tok, conn, sys.buf, lim.cfg);
    } else {
      var f :| Mid(tok, lim, conn, wire, sys.log, f) && PhaseOk(tok, lim, phase, sys.eaten, wire, sys.log, f);
      match phase
      case ExpectBody(head, kind) =>
        if kind.ChunkFramed? {
          ScanFromStart(sys.buf[0..]);
          ScanIsSane(conn.(phase := ScanBody(Some(head), 0, SCAN_START)), sys.buf, lim.cfg, 0);
        } else {
          PlainIsSane(sys.buf, F.Frame(tok, conn, sys.buf, lim.cfg));
        }
      case ScanBody(_, _, _) =>
        Region(tok, lim, phase, sys.eaten, sys.buf, sys.log, f);
        var k :| ScannedTo(wire[f.len..], k, phase.scan);
        ScanIsSane(conn, sys.buf, lim.cfg, k);
      case StreamKnown(_, _) => PlainIsSane(sys.buf, F.Frame(tok, conn, sys.buf, lim.cfg));
      case StreamBody(_, _, _, _) => StreamIsSane(conn, sys.buf);
    }
  }

  lemma {:induction false} PlainIsSane(buf: bytes, framed: F.Framed)
    requires framed.conn.phase.ExpectBody? || framed.conn.phase.StreamKnown?
    ensures Sane(buf, framed)
  {
  }

  /** Over every run, whatever the framer says next, the glue falls back on nothing. */
  lemma {:induction false} NoFallback(tok: Tokenizer, lim: Limits, actions: seq<Action>)
    requires Sound(tok)
    ensures var sys := Exec(tok, lim, Start(lim), actions);
            sys.open && !sys.conn.phase.Parked? ==> Sane(sys.buf, F.Frame(tok, sys.conn, sys.buf, lim.cfg))
  {
    hide Exec, F.Frame, Inv;
    EveryRun(tok, lim, actions);
    var sys := Exec(tok, lim, Start(lim), actions);
    if sys.open && !sys.conn.phase.Parked? {
      StateIsSane(tok, lim, sys);
    }
  }
}
