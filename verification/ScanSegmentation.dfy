/**
  A chunked body scanned as it arrives, against the caps: what the cutting of the bytes
  into arrivals can change, and what it cannot.
*/
module ScanSegmentation {
  import opened Bytes
  import opened HttpTypes
  import opened ConnectionInvariant
  import opened ConnectionSteps
  import F = Framer
  import C = Chunked
  import G = ChunkedGrammar
  import W = ChunkWalk

  datatype Judgement =
    | Waits
    | Refuses(status: nat)
    | Accepts(extent: nat)

  /** What one scan of all of `body` would decide. */
  function Judge(cfg: Config, body: bytes): Judgement {
    var r := C.Run(body, C.INIT);
    if |r.payload| > cfg.maxBody then Refuses(413)
    else if r.used > Min(cfg.maxBody + 16 * 1024, USIZE_MAX) then Refuses(400)
    else
      match r.verdict
      case More => Waits
      case Bad(status) => Refuses(status)
      case Complete => Accepts(r.used)
  }

  /** What the framer says about a judgement. */
  ghost predicate Says(framed: F.Framed, conn: Conn, buf: bytes, j: Judgement)
    requires conn.phase.ScanBody?
  {
    match j
    case Waits => framed.framing == MoreInMessage && framed.conn.phase.ScanBody?
    case Refuses(status) => exists headOnly :: framed == F.FailWith(conn, buf, status, headOnly)
    case Accepts(n) => framed == F.Framed(conn.(phase := ScanDone(conn.phase.stash)), Complete(conn.phase.headLen, n))
  }

  lemma {:induction false} StepJudges(conn: Conn, buf: bytes, cfg: Config, k: nat)
    requires conn.phase.ScanBody? && conn.phase.headLen <= |buf|
             && ScannedTo(buf[conn.phase.headLen..], k, conn.phase.scan)
    ensures var region, framed := buf[conn.phase.headLen..], F.ScanStep(conn, buf, cfg);
            && Says(framed, conn, buf, Judge(cfg, region))
            && (Judge(cfg, region).Waits? ==>
                  && framed.conn == conn.(phase := conn.phase.(scan := framed.conn.phase.scan))
                  && ScannedTo(region, |region|, framed.conn.phase.scan))
  {
    var region := buf[conn.phase.headLen..];
    ScanResumes(region, k, conn.phase.scan);
    var r := C.Run(region, C.INIT);
    assert region[..|region|] == region;
    assert r.verdict == C.More ==> ScannedTo(region, |region|, ScanPos(r.used, r.end));
    var headOnly := F.MethodIsHead(match conn.phase.stash case Some(h) => h case None => buf);
    hide C.Run, F.Scan, F.MethodIsHead, ScannedTo;
    assert r.end.decoded == |r.payload|;
    CapsAre(ScanPos(r.used, r.end), cfg);
    hide F.OverCap;
    if Judge(cfg, region).Refuses? {
      assert F.ScanStep(conn, buf, cfg) == F.FailWith(conn, buf, Judge(cfg, region).status, headOnly);
    }
  }

  /** The decoded cap is looked at first. */
  lemma {:induction false} CapsAre(pos: ScanPos, cfg: Config)
    ensures F.OverCap(pos, cfg) ==
            if pos.machine.decoded > cfg.maxBody then Some(413)
            else if pos.consumed > Min(cfg.maxBody + 16 * 1024, USIZE_MAX) then Some(400)
            else None
  {
  }

  /** Frame, and frame again after every arrival, until something is decided. */
  function Drive(conn: Conn, buf: bytes, arrivals: seq<bytes>, cfg: Config): (F.Framed, bytes)
    requires conn.phase.ScanBody?
    decreases |arrivals|
  {
    var framed := F.ScanStep(conn, buf, cfg);
    if arrivals == [] || framed.framing != MoreInMessage || !framed.conn.phase.ScanBody? then (framed, buf)
    else Drive(framed.conn, buf + arrivals[0], arrivals[1..], cfg)
  }

  /** How much has arrived when something is first decided. */
  function Until(cfg: Config, seen: bytes, arrivals: seq<bytes>): bytes
    decreases |arrivals|
  {
    if arrivals == [] || !Judge(cfg, seen).Waits? then seen else Until(cfg, seen + arrivals[0], arrivals[1..])
  }

  lemma {:induction false} DriveJudges(conn: Conn, buf: bytes, arrivals: seq<bytes>, cfg: Config, k: nat)
    requires conn.phase.ScanBody? && conn.phase.headLen <= |buf|
             && ScannedTo(buf[conn.phase.headLen..], k, conn.phase.scan)
    ensures var (framed, seen) := Drive(conn, buf, arrivals, cfg);
            && conn.phase.headLen <= |seen|
            && seen[conn.phase.headLen..] == Until(cfg, buf[conn.phase.headLen..], arrivals)
            && Says(framed, conn, seen, Judge(cfg, seen[conn.phase.headLen..]))
    decreases |arrivals|
  {
    hide Judge, F.ScanStep, ScannedTo;
    StepJudges(conn, buf, cfg, k);
    var framed, h := F.ScanStep(conn, buf, cfg), conn.phase.headLen;
    var region := buf[h..];
    if arrivals != [] && Judge(cfg, region).Waits? {
      DropAppend(buf, arrivals[0], h);
      ScannedFurther(region, arrivals[0], |region|, framed.conn.phase.scan);
      DriveJudges(framed.conn, buf + arrivals[0], arrivals[1..], cfg, |region|);
      SaysOf(framed.conn, conn, Drive(conn, buf, arrivals, cfg).0, Drive(conn, buf, arrivals, cfg).1, cfg);
    }
  }

  /** What is said does not depend on how far the scan had got before. */
  lemma {:induction false} SaysOf(a: Conn, b: Conn, framed: F.Framed, seen: bytes, cfg: Config)
    requires a.phase.ScanBody? && b.phase.ScanBody? && a == b.(phase := b.phase.(scan := a.phase.scan))
    requires b.phase.headLen <= |seen| && Says(framed, a, seen, Judge(cfg, seen[b.phase.headLen..]))
    ensures Says(framed, b, seen, Judge(cfg, seen[b.phase.headLen..]))
  {
    hide Judge;
    var j := Judge(cfg, seen[b.phase.headLen..]);
    if j.Refuses? {
      var headOnly :| framed == F.FailWith(a, seen, j.status, headOnly);
      assert framed == F.FailWith(b, seen, j.status, headOnly);
    }
  }

  lemma {:induction false} ScannedFurther(region: bytes, more: bytes, k: nat, pos: ScanPos)
    requires ScannedTo(region, k, pos)
    ensures ScannedTo(region + more, k, pos)
  {
    TakeAppend(region, more, k);
  }

  /** More bytes never undo what was consumed or decoded. */
  lemma {:induction false} RunGrows(a: bytes, b: bytes)
    ensures C.Run(a, C.INIT).used <= C.Run(a + b, C.INIT).used
    ensures C.Run(a, C.INIT).end.decoded <= C.Run(a + b, C.INIT).end.decoded
    ensures C.Run(a, C.INIT).verdict != C.More ==> C.Run(a + b, C.INIT) == C.Run(a, C.INIT)
  {
    hide C.Run;
    C.RunExtends(a, b, C.INIT);
  }

  /** A body scanned in pieces is waited for, accepted or refused as in one go, and accepted with the same extent. */
  lemma {:induction false} JudgementExtends(cfg: Config, a: bytes, b: bytes)
    ensures Judge(cfg, a).Accepts? ==> Judge(cfg, a + b) == Judge(cfg, a)
    ensures Judge(cfg, a).Refuses? ==> Judge(cfg, a + b).Refuses?
    ensures Judge(cfg, a).Refuses? ==>
              (Judge(cfg, a + b) != Judge(cfg, a) <==>
               C.Run(a, C.INIT).end.decoded <= cfg.maxBody < C.Run(a + b, C.INIT).end.decoded)
    ensures Judge(cfg, a).Refuses? && Judge(cfg, a + b) != Judge(cfg, a) ==>
              Judge(cfg, a) == Refuses(400) && Judge(cfg, a + b) == Refuses(413)
  {
    RunGrows(a, b);
    C.RunStops(a, C.INIT);
    hide C.Run;
  }

  lemma {:induction false} UntilIsPrefix(cfg: Config, seen: bytes, arrivals: seq<bytes>)
    ensures var at := Until(cfg, seen, arrivals);
            && at <= seen + Flatten(arrivals)
            && (Judge(cfg, at).Waits? ==> at == seen + Flatten(arrivals))
    decreases |arrivals|
  {
    hide Judge;
    if arrivals == [] {
      Empties(seen);
    } else if Judge(cfg, seen).Waits? {
      UntilIsPrefix(cfg, seen + arrivals[0], arrivals[1..]);
      AppendAppend(seen, arrivals[0], Flatten(arrivals[1..]));
    }
  }

  /**
    Segmentation independence of the scan step: whatever the arrivals, the body is accepted with the same
    extent, refused, or waited for, exactly as one scan of all of it would; and the refusing status is the
    same unless the decoded size was still in bounds when the scan stopped and is out of bounds in the whole.
  */
  lemma {:induction false} CutsDoNotDecide(conn: Conn, head: bytes, arrivals: seq<bytes>, cfg: Config)
    requires conn.phase.ScanBody? && conn.phase.headLen == |head| && conn.phase.scan == SCAN_START
    ensures var (framed, seen) := Drive(conn, head, arrivals, cfg);
            var whole := Flatten(arrivals);
            && |head| <= |seen| && seen <= head + whole
            && Says(framed, conn, seen, Judge(cfg, seen[|head|..]))
            && var here, there := Judge(cfg, seen[|head|..]), Judge(cfg, whole);
               && (here.Accepts? || there.Accepts? ==> here == there)
               && (here.Refuses? <==> there.Refuses?)
               && (here != there <==>
                     here.Refuses?
                     && C.Run(seen[|head|..], C.INIT).end.decoded <= cfg.maxBody < C.Run(whole, C.INIT).end.decoded)
               && (here != there ==> here == Refuses(400) && there == Refuses(413))
  {
    hide Judge, Drive, Until, C.Run, Says, ScannedTo;
    assert head[|head|..] == [];
    ScanFromStart([]);
    DriveJudges(conn, head, arrivals, cfg, 0);
    var seen := Drive(conn, head, arrivals, cfg).1;
    var at, whole := seen[|head|..], Flatten(arrivals);
    UntilIsPrefix(cfg, [], arrivals);
    Empties(whole);
    var rest := whole[|at|..];
    assert at + rest == whole;
    JudgementExtends(cfg, at, rest);
    DrivePrefix(conn, head, arrivals, cfg);
  }

  lemma {:induction false} DrivePrefix(conn: Conn, buf: bytes, arrivals: seq<bytes>, cfg: Config)
    requires conn.phase.ScanBody?
    ensures buf <= Drive(conn, buf, arrivals, cfg).1 <= buf + Flatten(arrivals)
    decreases |arrivals|
  {
    hide F.ScanStep;
    var framed := F.ScanStep(conn, buf, cfg);
    if arrivals == [] || framed.framing != MoreInMessage || !framed.conn.phase.ScanBody? {
    } else {
      DrivePrefix(framed.conn, buf + arrivals[0], arrivals[1..], cfg);
      AppendAppend(buf, arrivals[0], Flatten(arrivals[1..]));
    }
  }

  // ----- exactly which limits make the status depend on the cuts

  /** The wire bytes a scan can have taken in for `d` decoded bytes: 256-byte size lines, one byte per chunk. */
  predicate Room(state: C.State, used: nat, d: nat) {
    match state
    case Size => used <= 261 * d
    case Data(n) => n > 0 && used <= 261 * d + 258
    case DataCrlf => used + 2 <= 261 * d
    case _ => true
  }

  predicate InBody(state: C.State) {
    state == C.Size || state.Data? || state == C.DataCrlf
  }

  lemma {:induction false} TurnRoom(rest: bytes, m: C.Machine, c: nat)
    requires InBody(m.state) && Room(m.state, c, m.decoded)
    ensures var t := C.TakeTurn(rest, m); Room(t.next.state, c + t.used, t.next.decoded)
    ensures var t := C.TakeTurn(rest, m); t.stop.Some? ==> InBody(t.next.state)
  {
    hide C.ParseSizeLine, HasBareCrLf;
  }

  lemma {:induction false} RunRoom(rest: bytes, m: C.Machine, c: nat)
    requires InBody(m.state) && Room(m.state, c, m.decoded)
    ensures var r := C.Run(rest, m);
            (InBody(r.end.state) && Room(r.end.state, c + r.used,
                                         r.end.decoded)) || r.end.state == C.Trailer || r.end.state == C.Done
    decreases |rest|, if m.state.Data? then 1 else 0
  {
    hide C.TakeTurn, Room;
    TurnRoom(rest, m, c);
    var t := C.TakeTurn(rest, m);
    if t.stop.None? {
      if InBody(t.next.state) {
        RunRoom(rest[t.used..], t.next, c + t.used);
      } else {
        StaysInTrailers(rest[t.used..], t.next);
      }
    }
  }

  lemma {:induction false} StaysInTrailers(rest: bytes, m: C.Machine)
    requires m.state == C.Trailer || m.state == C.Done
    ensures C.Run(rest, m).end.state == C.Trailer || C.Run(rest, m).end.state == C.Done
    decreases |rest|
  {
    var t := C.TakeTurn(rest, m);
    if t.stop.None? {
      StaysInTrailers(rest[t.used..], t.next);
    }
  }

  /** Nothing is decoded once the trailers are reached. */
  lemma {:induction false} DecodedInTrailers(a: bytes, b: bytes)
    requires var r := C.Run(a, C.INIT); r.verdict == C.More && !InBody(r.end.state)
    ensures C.Run(a + b, C.INIT).end.decoded == C.Run(a, C.INIT).end.decoded
  {
    hide C.Run;
    var r := C.Run(a, C.INIT);
    C.RunExtends(a, b, C.INIT);
    W.NoPayloadInTrailers((a + b)[r.used..], r.end);
  }

  /** Under a small enough body limit the decoded cap is always passed before the wire cap. */
  lemma {:induction false} SmallLimitsAreStable(cfg: Config, a: bytes, b: bytes)
    requires cfg.maxBody <= 62 && Judge(cfg, a).Refuses?
    ensures Judge(cfg, a + b) == Judge(cfg, a)
  {
    hide C.Run;
    var r := C.Run(a, C.INIT);
    JudgementExtends(cfg, a, b);
    if r.verdict != C.More {
      RunGrows(a, b);
    } else if InBody(r.end.state) {
      RunRoom(a, C.INIT, 0);
    } else {
      DecodedInTrailers(a, b);
    }
  }

  /** One byte in the largest chunk framing there is. */
  function Padded(): bytes {
    [49] + Extension(254)
  }

  function Extension(n: nat): (r: bytes)
    ensures |r| == n + 1 && r[0] == SEMICOLON && forall i :: 0 < i < |r| ==> r[i] == 120
  {
    if n == 0 then [SEMICOLON] else Extension(n - 1) + [120]
  }

  function Tiny(): G.Chunk {
    G.Chunk(Padded(), [0])
  }

  function Tinies(n: nat): (cs: seq<G.Chunk>)
    ensures |cs| == n && forall i :: 0 <= i < |cs| ==> cs[i] == Tiny()
  {
    if n == 0 then [] else [Tiny()] + Tinies(n - 1)
  }

  lemma {:induction false} PaddedReads()
    ensures G.GoodSizeLine(Padded(), 1) && |Padded()| == 256
  {
    hide Extension, C.ParseSizeLine, G.Denotes;
    var line, ext := Padded(), Extension(254);
    PaddedIsPlain();
    Empties([49 as byte]);
    OneDigit();
    assert G.IsSizeLine(line, 1, [49], [], ext);
    G.SizeLineReads(line, 1, [49], [], ext);
  }

  lemma {:induction false} OneDigit()
    ensures G.Denotes([49], 1)
  {
    var l := G.LOWER_DIGITS;
    assert l[1] == '1';
    assert [49 as byte][..0] == [];
    assert G.Denotes([], 0);
  }

  lemma {:induction false} PaddedIsPlain()
    ensures !HasBareCrLf(Padded())
  {
    hide Extension;
    var line := Padded();
    assert forall i :: 0 <= i < |line| ==> line[i] != CR && line[i] != LF;
  }

  lemma {:induction false} TiniesMeasure(n: nat)
    ensures |G.RenderChunks(Tinies(n))| == 261 * n && |G.Entity(Tinies(n))| == n
  {
    PaddedReads();
    hide G.GoodSizeLine, Padded;
    if n > 0 {
      assert Tinies(n)[1..] == Tinies(n - 1);
      TiniesMeasure(n - 1);
    }
  }

  /** As many one-byte chunks as the limit allows, and the framing of one more. */
  function UpToTheLimit(n: nat): bytes {
    G.RenderChunks(Tinies(n)) + (Padded() + CRLF)
  }

  lemma {:induction false} UpToTheLimitRuns(n: nat)
    ensures var r := C.Run(UpToTheLimit(n), C.INIT);
            r.verdict == C.More && r.used == |UpToTheLimit(n)| && r.end == C.Machine(n, 0, C.Data(1))
    ensures |UpToTheLimit(n)| == 261 * n + 258
  {
    PaddedReads();
    TiniesMeasure(n);
    hide C.Run, G.RenderChunks, G.Entity, Tinies, G.GoodSizeLine, Padded;
    assert G.GoodChunk(Tiny());
    G.ChunksRun(Tinies(n), Padded() + CRLF, C.INIT);
    W.HeaderRuns(Padded(), 1, n, false);
    Empties(Padded() + CRLF);
  }

  /** At every larger limit there is a body whose status depends on where it is cut. */
  lemma {:induction false} LargerLimitsAreNot(cfg: Config)
    requires 63 <= cfg.maxBody
    ensures Judge(cfg, UpToTheLimit(cfg.maxBody)) == Refuses(400)
    ensures Judge(cfg, UpToTheLimit(cfg.maxBody) + [0]) == Refuses(413)
  {
    var n := cfg.maxBody;
    UpToTheLimitRuns(n);
    hide C.Run, UpToTheLimit;
    W.Chain(UpToTheLimit(n), [0], C.INIT);
    W.DataRuns([0], n, 1);
  }

  /** Whether the status never depends on the cuts. */
  ghost predicate StatusIsStable(cfg: Config) {
    forall a: bytes, b: bytes {:trigger Judge(cfg, a + b)} ::
      Judge(cfg, a).Refuses? ==> Judge(cfg, a + b) == Judge(cfg, a)
  }

  /**
    The refusing status is independent of segmentation for every body if and only if the body limit is at
    most 62 bytes.
  */
  lemma {:induction false} StatusIsStableIff(cfg: Config)
    ensures StatusIsStable(cfg) <==> cfg.maxBody <= 62
  {
    hide Judge, UpToTheLimit;
    if cfg.maxBody <= 62 {
      forall a: bytes, b: bytes | Judge(cfg, a).Refuses?
        ensures Judge(cfg, a + b) == Judge(cfg, a)
      {
        SmallLimitsAreStable(cfg, a, b);
      }
    } else {
      LargerLimitsAreNot(cfg);
    }
  }
}
