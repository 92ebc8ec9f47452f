/** The values the HTTP framer and its glue pass around. */
module HttpTypes {
  import opened Bytes
  import C = Chunked

  /** How a request's body is framed: so many bytes, or chunk by chunk. */
  datatype BodyKind =
    | Sized(len: nat)
    | ChunkFramed

  /** The body framing a head declares, or the status it is refused with. */
  datatype BodyVerdict =
    | BodyOk(kind: BodyKind)
    | BodyBad(status: nat)

  datatype Extent = Extent(at: nat, len: nat)

  /**
    What tokenizing a complete head yields: its length, its body framing, whether the
    client expects `100 Continue`, and where its parts sit. `placeable` says whether the
    parts could be recorded as offsets.
  */
  datatype Facts = Facts(len: nat, body: BodyVerdict, expects: bool, parts: seq<Extent>, placeable: bool)

  datatype HeadVerdict =
    | Partial
    | Rejected(status: nat)
    | Parsed(facts: Facts)

  /** The parts of a head, as the handler sees them. */
  type View = seq<bytes>

  /** The head tokenizer, and whether a head lets the connection persist; both are parameters of the codec. */
  datatype Tokenizer = Tokenizer(parse: bytes -> HeadVerdict, persists: View -> bool)

  predicate Fits(parts: seq<Extent>, n: nat) {
    forall i :: 0 <= i < |parts| ==> parts[i].at + parts[i].len <= n
  }

  function Parts(head: bytes, parts: seq<Extent>): View
    requires Fits(parts, |head|)
  {
    seq(|parts|, i requires 0 <= i < |parts| => head[parts[i].at..parts[i].at + parts[i].len])
  }

  const BUG: nat := 500

  /** What the codec relies on: a verdict on a prefix is kept by every extension, and reads the head alone. */
  ghost predicate Sound(tok: Tokenizer) {
    && tok.parse([]).Partial?
    && (forall b: bytes, more: bytes {:trigger tok.parse(b + more)} ::
          !tok.parse(b).Partial? ==> tok.parse(b + more) == tok.parse(b))
    && (forall b: bytes {:trigger tok.parse(b)} :: ParseOk(tok, b))
  }

  predicate ParseOk(tok: Tokenizer, b: bytes) {
    match tok.parse(b)
    case Partial => true
    case Rejected(status) => status != BUG
    case Parsed(f) =>
      && 0 < f.len <= |b|
      && tok.parse(b[..f.len]) == tok.parse(b)
      && Fits(f.parts, f.len)
      && (f.body.BodyOk? && f.body.kind.Sized? ==> f.body.kind.len <= USIZE_MAX)
      && (f.body.BodyBad? ==> f.body.status != BUG)
  }

  /** The offsets of the last head tokenized complete. */
  datatype Index = Index(len: nat, parts: seq<Extent>)

  function IndexOf(f: Facts): Option<Index> {
    if f.placeable then Some(Index(f.len, f.parts)) else None
  }

  /** A head viewed through the index when it describes a head of that length, by tokenizing otherwise. */
  function HeadView(tok: Tokenizer, index: Option<Index>, head: bytes): Option<View> {
    if index.Some? && index.value.len == |head| then
      if Fits(index.value.parts, |head|) then Some(Parts(head, index.value.parts)) else None
    else
      match tok.parse(head)
      case Parsed(f) => if Fits(f.parts, |head|) then Some(Parts(head, f.parts)) else None
      case _ => None
  }

  datatype Stage = Whole | Open | Window | End

  /** Which completion handle a park gave out: one that can redrive or reply, or one that can resume or fail. */
  datatype ParkKind = Retained | Streaming

  datatype ParkedRequest = ParkedRequest(head: bytes, stage: Stage, body: bytes, trailers: seq<C.Field>, kind: ParkKind)

  datatype StreamPark = StreamPark(next: Phase, expectInterim: bool)

  /** A scan in progress: bytes consumed, and the machine. */
  datatype ScanPos = ScanPos(consumed: nat, machine: C.Machine)

  const SCAN_START: ScanPos := ScanPos(0, C.INIT)

  /** Where the connection stands between messages. */
  datatype Phase =
    | AtHead
    | ExpectHead(head: bytes, kind: BodyKind)
    | ExpectBody(head: bytes, kind: BodyKind)
    | ScanBody(stash: Option<bytes>, headLen: nat, scan: ScanPos)
    | ScanDone(stash: Option<bytes>)
    | Fail(status: nat, headOnly: bool)
    | StreamOpen(head: bytes, expects: bool, kind: BodyKind)
    | StreamKnown(head: bytes, remaining: nat)
    | StreamBody(head: bytes, chunkLeft: nat, afterPayload: bool, decoded: nat)
    | StreamDone(head: bytes, blockAt: nat)
    | Parked(req: ParkedRequest, resume: Option<StreamPark>)

  datatype Conn = Conn(phase: Phase, streamCap: Option<nat>, index: Option<Index>)

  datatype Config = Config(maxHead: nat, maxBody: nat)

  /** The framer's verdict on what is buffered. */
  datatype Framing =
    | More
    | MoreInMessage
    | Complete(headerLen: nat, bodyLen: nat)
}

/** Mapping accumulated bytes onto message extents. */
module Framer {
  import opened Bytes
  import opened HttpTypes
  import C = Chunked
  import W = ChunkWalk

  const CHUNK_WIRE_OVERHEAD: nat := 16 * 1024
  const STREAM_WINDOW: nat := 128 * 1024

  function SatAdd(a: nat, b: nat): nat {
    Min(a + b, USIZE_MAX)
  }

  /** The smallest reactor buffer under which every admitted message reaches the framer intact. */
  function MinRequestBytes(cfg: Config): nat {
    var buffered := SatAdd(SatAdd(SatAdd(cfg.maxHead, cfg.maxBody), CHUNK_WIRE_OVERHEAD), C.TRAILER_LINE_MAX + 1);
    var streamed := SatAdd(SatAdd(cfg.maxHead, STREAM_WINDOW), C.CHUNK_LINE_MAX + 4);
    if buffered >= streamed then buffered else streamed
  }

  /** Whether raw head bytes name the `HEAD` method, empty lines before it skipped. */
  function MethodIsHead(head: bytes): bool
    decreases |head|
  {
    if |head| >= 2 && head[0] == CR && head[1] == LF then MethodIsHead(head[2..])
    else if |head| >= 1 && head[0] == LF then MethodIsHead(head[1..])
    else |head| >= 5 && head[..5] == [72, 69, 65, 68, 32]
  }

  datatype Framed = Framed(conn: Conn, framing: Framing)

  function FailWith(conn: Conn, buf: bytes, status: nat, headOnly: bool): Framed {
    Framed(conn.(phase := Fail(status, headOnly)), Complete(|buf|, 0))
  }

  /** Resume a scan over the body region. */
  function Scan(body: bytes, pos: ScanPos): (C.Verdict, ScanPos) {
    if pos.machine.state.Done? then (C.Complete, pos)
    else if pos.consumed > |body| then (C.Bad(400), pos)
    else
      var r := C.Run(body[pos.consumed..], pos.machine);
      (r.verdict, ScanPos(pos.consumed + r.used, r.end))
  }

  function WireCap(cfg: Config): nat {
    SatAdd(cfg.maxBody, CHUNK_WIRE_OVERHEAD)
  }

  /** The caps on what a scan has taken in, the decoded one first. */
  function OverCap(pos: ScanPos, cfg: Config): Option<nat> {
    if pos.machine.decoded > cfg.maxBody then Some(413)
    else if pos.consumed > WireCap(cfg) then Some(400)
    else None
  }

  function ScanStep(conn: Conn, buf: bytes, cfg: Config): Framed
    requires conn.phase.ScanBody?
  {
    var headLen := conn.phase.headLen;
    var headOnly := MethodIsHead(match conn.phase.stash case Some(h) => h case None => buf);
    var body := if headLen <= |buf| then buf[headLen..] else [];
    var (verdict, pos) := Scan(body, conn.phase.scan);
    match (OverCap(pos, cfg), verdict)
    case (Some(status), _) => FailWith(conn, buf, status, headOnly)
    case (None, Bad(status)) => FailWith(conn, buf, status, headOnly)
    case (None, More) => Framed(conn.(phase := conn.phase.(scan := pos)), MoreInMessage)
    case (None, Complete) => Framed(conn.(phase := ScanDone(conn.phase.stash)), Complete(headLen, pos.consumed))
  }

  function KnownStep(conn: Conn, buf: bytes): Framed
    requires conn.phase.StreamKnown?
  {
    var remaining := conn.phase.remaining;
    if remaining == 0 then FailWith(conn, buf, BUG, false)
    else if buf == [] then Framed(conn, MoreInMessage)
    else Framed(conn, Complete(0, Min(remaining, STREAM_WINDOW)))
  }

  function StreamStep(conn: Conn, buf: bytes): Framed
    requires conn.phase.StreamBody?
  {
    var StreamBody(head, chunkLeft, afterPayload, decoded) := conn.phase;
    if chunkLeft > 0 then Framed(conn, Complete(0, Min(chunkLeft, STREAM_WINDOW)))
    else
      match W.NextChunk(buf, afterPayload)
      case Wait => Framed(conn, MoreInMessage)
      case Malformed(status) => FailWith(conn, buf, status, MethodIsHead(head))
      case ChunkAt(framing, payload) =>
        if conn.streamCap.Some? && SatAdd(decoded, payload) > conn.streamCap.value then
          FailWith(conn, buf, 413, MethodIsHead(head))
        else Framed(conn, Complete(framing, Min(payload, STREAM_WINDOW)))
      case LastAt(framing) =>
        Framed(conn.(phase := StreamDone(head, if afterPayload then 2 else 0)), Complete(framing, 0))
  }

  /** Whether the connection streams a body of this kind rather than deliver it whole. */
  predicate Streams(cap: Option<nat>, kind: BodyKind) {
    cap.Some? && (kind.ChunkFramed? || kind.len > STREAM_WINDOW)
  }

  /** Whether the head goes out alone first, so that the interim response can be sent. */
  predicate Dances(f: Facts, kind: BodyKind) {
    f.expects && kind != Sized(0)
  }

  function BodyStep(conn: Conn, buf: bytes, cfg: Config, f: Facts, kind: BodyKind): Framed
    requires f.len <= |buf|
  {
    var headOnly := MethodIsHead(buf);
    var head := buf[..f.len];
    if kind.Sized? && conn.streamCap.Some? && kind.len > conn.streamCap.value then FailWith(conn, buf, 413, headOnly)
    else if Streams(conn.streamCap, kind) then
      Framed(conn.(phase := StreamOpen(head, f.expects, kind)), Complete(f.len, 0))
    else if kind.Sized? && kind.len > cfg.maxBody then FailWith(conn, buf, 413, headOnly)
    else if Dances(f, kind) then Framed(conn.(phase := ExpectHead(head, kind)), Complete(f.len, 0))
    else if kind.Sized? then Framed(conn, Complete(f.len, kind.len))
    else ScanStep(conn.(phase := ScanBody(None, f.len, SCAN_START)), buf, cfg)
  }

  function HeadStep(tok: Tokenizer, conn: Conn, buf: bytes, cfg: Config): Framed {
    var headOnly := MethodIsHead(buf);
    match tok.parse(buf)
    case Rejected(status) =>
      var late := |buf| > cfg.maxHead && tok.parse(buf[..cfg.maxHead]).Partial?;
      FailWith(conn.(index := None), buf, if late then 431 else status, headOnly)
    case Partial =>
      if |buf| > cfg.maxHead then FailWith(conn.(index := None), buf, 431, headOnly)
      else Framed(conn.(index := None), More)
    case Parsed(f) =>
      var indexed := conn.(index := IndexOf(f));
      if f.len > cfg.maxHead || f.len > |buf| then FailWith(indexed, buf, 431, headOnly)
      else
        match f.body
        case BodyBad(status) => FailWith(indexed, buf, status, headOnly)
        case BodyOk(kind) => BodyStep(indexed, buf, cfg, f, kind)
  }

  /** One framing decision on the bytes accumulated since the last complete message. */
  function Frame(tok: Tokenizer, conn: Conn, buf: bytes, cfg: Config): Framed {
    match conn.phase
    case Fail(_, _) => Framed(conn, Complete(|buf|, 0))
    case Parked(_, _) => Framed(conn, More)
    case ScanDone(_) => Framed(conn, Complete(|buf|, 0))
    case StreamOpen(_, _, _) => Framed(conn, Complete(|buf|, 0))
    case StreamDone(_, _) => Framed(conn, Complete(|buf|, 0))
    case ExpectHead(head, kind) => ExpectStep(conn, buf, cfg, head, kind)
    case ExpectBody(head, kind) => ExpectStep(conn, buf, cfg, head, kind)
    case ScanBody(_, _, _) => ScanStep(conn, buf, cfg)
    case StreamBody(_, _, _, _) => StreamStep(conn, buf)
    case StreamKnown(_, _) => KnownStep(conn, buf)
    case AtHead => HeadStep(tok, conn, buf, cfg)
  }

  /** The dance's second message: the body alone. */
  function ExpectStep(conn: Conn, buf: bytes, cfg: Config, head: bytes, kind: BodyKind): Framed {
    match kind
    case Sized(n) => Framed(conn, Complete(0, n))
    case ChunkFramed => ScanStep(conn.(phase := ScanBody(Some(head), 0, SCAN_START)), buf, cfg)
  }
}

/** Acting on a delivered message: dispatching to the handler, answering, and moving the phase on. */
module Glue {
  import opened Bytes
  import opened HttpTypes
  import F = Framer
  import C = Chunked
  import W = ChunkWalk
  import R = ChunkedReaders

  /** What a reply carries. */
  datatype Payload =
    | Interim
    | Nothing
    | Answer
    | Farewell(status: nat, headOnly: bool)

  /** The reactor verdicts the glue returns. */
  datatype Response =
    | Reply(what: Payload)
    | ReplyClose(what: Payload)
    | ReplyVectored(close: bool)
    | Defer
    | Close

  /** A handler's verdict on one delivery. */
  datatype Choice =
    | Respond(wantsClose: bool, hasBody: bool)
    | Continue
    | Park(kind: ParkKind)

  /** What a worker decided for a parked request. */
  datatype Outcome =
    | Redrive
    | Resume
    | Answered(wantsClose: bool, hasBody: bool)

  /** Everything a delivery depends on that the codec does not decide. */
  datatype Env = Env(draining: bool, drainingAfter: bool, first: Choice, second: Choice, outcome: Outcome)

  /** One handler invocation. */
  datatype Dispatch = Dispatch(stage: Stage, head: bytes, view: View, body: bytes, trailers: seq<C.Field>,
                               redriven: bool)

  datatype Dispatched =
    | Done(resp: Response)
    | Accepted
    | Parking(req: ParkedRequest)

  /** The result of one delivery: the new connection state, the response, and the handler calls made. */
  datatype Result = Result(conn: Conn, resp: Response, calls: seq<Dispatch>)

  function ForceFinal(resp: Response): Response {
    match resp
    case Reply(what) => ReplyClose(what)
    case ReplyVectored(_) => ReplyVectored(true)
    case _ => resp
  }

  predicate Abandons(stage: Stage) {
    stage == Open || stage == Window
  }

  /** Serialize an answer against what the head negotiated and pick keep-alive or close. */
  function Negotiate(tok: Tokenizer, view: View, wantsClose: bool, hasBody: bool, draining: bool,
                     abandons: bool): Response {
    var keep := tok.persists(view) && !wantsClose && !draining && !abandons;
    if hasBody then ReplyVectored(!keep)
    else if keep then Reply(Answer) else ReplyClose(Answer)
  }

  function SayFarewell(status: nat, headOnly: bool): Response {
    ReplyClose(Farewell(status, headOnly))
  }

  function Invite(expects: bool): Response {
    Reply(if expects then Interim else Nothing)
  }

  /** Run the handler on one delivery. */
  function Call(tok: Tokenizer, conn: Conn, head: bytes, body: bytes, trailers: seq<C.Field>, stage: Stage,
                redriven: bool, choice: Choice, draining: bool): (Dispatched, seq<Dispatch>) {
    match HeadView(tok, conn.index, head)
    case None => (Done(SayFarewell(BUG, F.MethodIsHead(head))), [])
    case Some(view) =>
      var call := [Dispatch(stage, head, view, body, trailers, redriven)];
      match choice
      case Respond(wantsClose, hasBody) =>
        (Done(Negotiate(tok, view, wantsClose, hasBody, draining, Abandons(stage))), call)
      case Park(Retained) => (Parking(ParkedRequest(head, stage, body, trailers, Retained)), call)
      case Park(Streaming) => (Parking(ParkedRequest(head, stage, [], [], Streaming)), call)
      case Continue => (if stage == Whole || stage == End then Done(Close) else Accepted, call)
  }

  /** File a park, or pass the verdict through. */
  function Settle(conn: Conn, d: Dispatched, resume: Option<StreamPark>, calls: seq<Dispatch>): Result {
    match d
    case Done(resp) => Result(conn, resp, calls)
    case Parking(req) => Result(conn.(phase := Parked(req, resume)), Defer, calls)
    case Accepted => Result(conn, Close, calls)
  }

  /** A delivery that settles with nothing to resume. */
  function CallWhole(tok: Tokenizer, conn: Conn, head: bytes, body: bytes, trailers: seq<C.Field>, stage: Stage,
                     choice: Choice, draining: bool): Result {
    var (d, calls) := Call(tok, conn, head, body, trailers, stage, false, choice, draining);
    Settle(conn, d, None, calls)
  }

  function EndCall(tok: Tokenizer, conn: Conn, head: bytes, trailers: seq<C.Field>, choice: Choice,
                   draining: bool): Result {
    CallWhole(tok, conn, head, [], trailers, End, choice, draining)
  }

  function After(r: Result, calls: seq<Dispatch>): Result {
    r.(calls := calls + r.calls)
  }

  /** A streamed delivery: accepted, it moves to `next`; refused, the reply is final; parked, it resumes at `next`. */
  function StreamSettle(conn: Conn, d: Dispatched, calls: seq<Dispatch>, next: Phase, park: Phase,
                        expects: bool): Result {
    match d
    case Accepted => Result(conn.(phase := next), Invite(expects), calls)
    case Done(resp) => Result(conn, ForceFinal(resp), calls)
    case Parking(_) => Settle(conn, d, Some(StreamPark(park, expects)), calls)
  }

  function OpenStep(tok: Tokenizer, conn: Conn, head: bytes, expects: bool, kind: BodyKind, env: Env): Result {
    if env.draining then Result(conn, SayFarewell(503, F.MethodIsHead(head)), [])
    else
      var (d, calls) := Call(tok, conn, head, [], [], Open, false, env.first, env.drainingAfter);
      var next := match kind
        case ChunkFramed => StreamBody(head, 0, false, 0)
        case Sized(len) => StreamKnown(head, len);
      StreamSettle(conn, d, calls, next, next, expects)
  }

  function BodyWindowStep(tok: Tokenizer, conn: Conn, was: Phase, header: bytes, body: bytes, env: Env): Result
    requires was.StreamBody?
  {
    var owed :=
      if was.chunkLeft > 0 then was.chunkLeft
      else match W.NextChunk(header, was.afterPayload)
        case ChunkAt(_, payload) => payload
        case _ => |body|;
    var left := if owed > |body| then owed - |body| else 0;
    var (d, calls) := Call(tok, conn, was.head, body, [], Window, false, env.first, env.drainingAfter);
    var next := StreamBody(was.head, left, left == 0, F.SatAdd(was.decoded, |body|));
    StreamSettle(conn, d, calls, next, next, false)
  }

  function KnownWindowStep(tok: Tokenizer, conn: Conn, head: bytes, remaining: nat, body: bytes, env: Env): Result {
    var left := if remaining > |body| then remaining - |body| else 0;
    var (d, calls) := Call(tok, conn, head, body, [], Window, false, env.first, env.drainingAfter);
    if d.Accepted? && left == 0 then After(EndCall(tok, conn, head, [], env.second, env.drainingAfter), calls)
    else
      var next := StreamKnown(head, left);
      StreamSettle(conn, d, calls, next, if left == 0 then StreamDone(head, 0) else next, false)
  }

  /** The trailers of a terminal block; none when it does not read as one. */
  function BlockTrailers(block: bytes): seq<C.Field> {
    match R.Decode(block)
    case Some(d) => d.trailers
    case None => []
  }

  function DoneStep(tok: Tokenizer, conn: Conn, head: bytes, blockAt: nat, header: bytes, env: Env): Result {
    EndCall(tok, conn, head, BlockTrailers(header[Min(blockAt, |header|)..]), env.first, env.drainingAfter)
  }

  /** A whole chunked message: de-chunk it, then dispatch the entity. */
  function ScannedStep(tok: Tokenizer, conn: Conn, stash: Option<bytes>, header: bytes, body: bytes, env: Env): Result {
    var head := match stash case Some(h) => h case None => header;
    match R.Decode(body)
    case Some(d) => CallWhole(tok, conn, head, d.entity, d.trailers, Whole, env.first, env.drainingAfter)
    case None => Result(conn, SayFarewell(BUG, F.MethodIsHead(head)), [])
  }

  /** A parked request's completion. */
  function ParkedStep(tok: Tokenizer, conn: Conn, req: ParkedRequest, resume: Option<StreamPark>, env: Env): Result {
    match env.outcome
    case Resume =>
      (match resume
       case None => Result(conn, Close, [])
       case Some(r) =>
         if r.next.StreamDone? then EndCall(tok, conn, req.head, [], env.first, env.drainingAfter)
         else Result(conn.(phase := r.next), Invite(r.expectInterim), []))
    case Answered(wantsClose, hasBody) =>
      var out := match HeadView(tok, conn.index, req.head)
        case None => SayFarewell(BUG, F.MethodIsHead(req.head))
        case Some(view) => Negotiate(tok, view, wantsClose, hasBody, env.drainingAfter, resume.Some?);
      Result(conn, if resume.Some? then ForceFinal(out) else out, [])
    case Redrive =>
      var (d, calls) := Call(tok, conn, req.head, req.body, req.trailers, req.stage, true, env.first,
                             env.drainingAfter);
      if d.Accepted? && resume.Some? then
        if resume.value.next.StreamDone? then After(EndCall(tok, conn, req.head, [], env.second, env.drainingAfter),
                                                    calls)
        else Result(conn.(phase := resume.value.next), Invite(resume.value.expectInterim), calls)
      else Settle(conn, d, resume, calls)
  }

  /** One delivered message against the connection's phase. */
  function Step(tok: Tokenizer, was: Conn, header: bytes, body: bytes, env: Env): Result {
    var conn := was.(phase := AtHead);
    match was.phase
    case Fail(status, headOnly) => Result(conn, SayFarewell(status, headOnly), [])
    case ExpectHead(head, kind) =>
      if env.draining then Result(conn, SayFarewell(503, F.MethodIsHead(head)), [])
      else Result(conn.(phase := ExpectBody(head, kind)), Reply(Interim), [])
    case ExpectBody(head, _) => CallWhole(tok, conn, head, body, [], Whole, env.first, env.drainingAfter)
    case ScanDone(stash) => ScannedStep(tok, conn, stash, header, body, env)
    case ScanBody(stash, _, _) =>
      Result(conn, SayFarewell(BUG, F.MethodIsHead(match stash case Some(h) => h case None => header)), [])
    case AtHead => CallWhole(tok, conn, header, body, [], Whole, env.first, env.drainingAfter)
    case StreamOpen(head, expects, kind) => OpenStep(tok, conn, head, expects, kind, env)
    case StreamBody(_, _, _, _) => BodyWindowStep(tok, conn, was.phase, header, body, env)
    case StreamKnown(head, remaining) => KnownWindowStep(tok, conn, head, remaining, body, env)
    case StreamDone(head, blockAt) => DoneStep(tok, conn, head, blockAt, header, env)
    case Parked(req, resume) => ParkedStep(tok, conn, req, resume, env)
  }
}
