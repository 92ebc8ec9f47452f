/**
  The framer and the glue as they run: one connection object whose phase and head index
  are rewritten in place, with the scanner resumed and owned bodies de-chunked in place.
*/
module HttpConnection {
  import opened Bytes
  import opened HttpTypes
  import opened Glue
  import F = Framer
  import C = Chunked
  import W = ChunkWalk
  import R = ChunkedReaders

  /** A delivered body: a view of the reactor's buffer, or an allocation handed over. */
  datatype Delivered =
    | Borrowed(bs: bytes)
    | Owned(storage: array<byte>)

  ghost function Content(body: Delivered): bytes
    reads if body.Owned? then {body.storage} else {}
  {
    match body
    case Borrowed(bs) => bs
    case Owned(storage) => storage[..]
  }

  class HttpConn {
    var phase: Phase
    const streamCap: Option<nat>
    var index: Option<Index>

    ghost function Value(): Conn
      reads this
    {
      Conn(phase, streamCap, index)
    }

    constructor (cap: Option<nat>)
      ensures Value() == Conn(AtHead, cap, None)
    {
      phase, streamCap, index := AtHead, cap, None;
    }

    // ----- framing

    method Fail(buf: bytes, status: nat, headOnly: bool) returns (framing: Framing)
      modifies this`phase
      ensures F.Framed(Value(), framing) == F.FailWith(old(Value()), buf, status, headOnly)
    {
      phase := Phase.Fail(status, headOnly);
      framing := Framing.Complete(|buf|, 0);
    }

    method KnownStep(buf: bytes) returns (framing: Framing)
      requires phase.StreamKnown?
      modifies this`phase
      ensures F.Framed(Value(), framing) == F.KnownStep(old(Value()), buf)
    {
      if phase.remaining == 0 {
        framing := Fail(buf, BUG, false);
      } else if buf == [] {
        framing := MoreInMessage;
      } else {
        framing := Framing.Complete(0, Min(phase.remaining, F.STREAM_WINDOW));
      }
    }

    method StreamStep(buf: bytes) returns (framing: Framing)
      requires phase.StreamBody?
      modifies this`phase
      ensures F.Framed(Value(), framing) == F.StreamStep(old(Value()), buf)
    {
      hide F.MethodIsHead, W.NextChunk;
      var StreamBody(head, chunkLeft, afterPayload, decoded) := phase;
      if chunkLeft > 0 {
        return Framing.Complete(0, Min(chunkLeft, F.STREAM_WINDOW));
      }
      match W.NextChunk(buf, afterPayload)
      case Wait =>
        framing := MoreInMessage;
      case Malformed(status) =>
        framing := Fail(buf, status, F.MethodIsHead(head));
      case ChunkAt(at, payload) =>
        if streamCap.Some? && F.SatAdd(decoded, payload) > streamCap.value {
          framing := Fail(buf, 413, F.MethodIsHead(head));
        } else {
          framing := Framing.Complete(at, Min(payload, F.STREAM_WINDOW));
        }
      case LastAt(at) =>
        phase := StreamDone(head, if afterPayload then 2 else 0);
        framing := Framing.Complete(at, 0);
    }

    /** Resume the scanner kept in the phase, and put it back where it stopped. */
    method ResumeScan(body: bytes) returns (verdict: C.Verdict)
      requires phase.ScanBody?
      modifies this`phase
      ensures phase.ScanBody? && Value() == old(Value()).(phase := old(phase).(scan := phase.scan))
      ensures F.Scan(body, old(phase.scan)) == (verdict, phase.scan)
    {
      hide C.Run;
      var ScanPos(consumed, machine) := phase.scan;
      var scan := new R.ChunkScan.Resumed(consumed, machine);
      var spans, lines;
      verdict, spans, lines := scan.Advance(body);
      phase := phase.(scan := ScanPos(scan.consumed, C.Machine(scan.decoded, scan.trailerBytes, scan.state)));
    }

    method ScanStep(buf: bytes, cfg: Config) returns (framing: Framing)
      requires phase.ScanBody?
      modifies this`phase
      ensures F.Framed(Value(), framing) == F.ScanStep(old(Value()), buf, cfg)
    {
      hide F.MethodIsHead, F.Scan;
      var headOnly := F.MethodIsHead(match phase.stash case Some(h) => h case None => buf);
      var headLen := phase.headLen;
      var body := if headLen <= |buf| then buf[headLen..] else [];
      var verdict := ResumeScan(body);
      var consumed := phase.scan.consumed;
      if phase.scan.machine.decoded > cfg.maxBody {
        framing := Fail(buf, 413, headOnly);
      } else if consumed > F.SatAdd(cfg.maxBody, F.CHUNK_WIRE_OVERHEAD) {
        framing := Fail(buf, 400, headOnly);
      } else {
        match verdict
        case Bad(status) =>
          framing := Fail(buf, status, headOnly);
        case More =>
          framing := MoreInMessage;
        case Complete =>
          phase := ScanDone(phase.stash);
          framing := Framing.Complete(headLen, consumed);
      }
    }

    /** A complete head with a body of this kind behind it. */
    method BodyStep(buf: bytes, cfg: Config, f: Facts, kind: BodyKind) returns (framing: Framing)
      requires f.len <= |buf|
      modifies this`phase
      ensures F.Framed(Value(), framing) == F.BodyStep(old(Value()), buf, cfg, f, kind)
    {
      hide F.MethodIsHead, F.ScanStep;
      var headOnly := F.MethodIsHead(buf);
      match kind
      case Sized(len) =>
        if streamCap.Some? && len > streamCap.value {
          framing := Fail(buf, 413, headOnly);
        } else if streamCap.Some? && len > F.STREAM_WINDOW {
          phase := StreamOpen(buf[..f.len], f.expects, kind);
          framing := Framing.Complete(f.len, 0);
        } else if len > cfg.maxBody {
          framing := Fail(buf, 413, headOnly);
        } else if f.expects && len > 0 {
          phase := ExpectHead(buf[..f.len], kind);
          framing := Framing.Complete(f.len, 0);
        } else {
          framing := Framing.Complete(f.len, len);
        }
      case ChunkFramed =>
        if streamCap.Some? {
          phase := StreamOpen(buf[..f.len], f.expects, kind);
          framing := Framing.Complete(f.len, 0);
        } else if f.expects {
          phase := ExpectHead(buf[..f.len], kind);
          framing := Framing.Complete(f.len, 0);
        } else {
          phase := ScanBody(None, f.len, SCAN_START);
          framing := ScanStep(buf, cfg);
        }
    }

    method HeadStep(tok: Tokenizer, buf: bytes, cfg: Config) returns (framing: Framing)
      modifies this
      ensures F.Framed(Value(), framing) == F.HeadStep(tok, old(Value()), buf, cfg)
    {
      hide F.MethodIsHead, F.BodyStep;
      var headOnly := F.MethodIsHead(buf);
      match tok.parse(buf)
      case Rejected(screen) =>
        index := None;
        var status := screen;
        if |buf| > cfg.maxHead && tok.parse(buf[..cfg.maxHead]).Partial? {
          status := 431;
        }
        framing := Fail(buf, status, headOnly);
      case Partial =>
        index := None;
        if |buf| > cfg.maxHead {
          framing := Fail(buf, 431, headOnly);
        } else {
          framing := Framing.More;
        }
      case Parsed(f) =>
        index := IndexOf(f);
        if f.len > cfg.maxHead || f.len > |buf| {
          framing := Fail(buf, 431, headOnly);
        } else {
          match f.body
          case BodyBad(status) => framing := Fail(buf, status, headOnly);
          case BodyOk(kind) => framing := BodyStep(buf, cfg, f, kind);
        }
    }

    /** One framing decision on the bytes accumulated since the last complete message. */
    method Frame(tok: Tokenizer, buf: bytes, cfg: Config) returns (framing: Framing)
      modifies this
      ensures F.Framed(Value(), framing) == F.Frame(tok, old(Value()), buf, cfg)
    {
      hide F.HeadStep, F.ScanStep, F.StreamStep, F.KnownStep;
      match phase
      case Fail(_, _) => framing := Framing.Complete(|buf|, 0);
      case Parked(_, _) => framing := Framing.More;
      case ScanDone(_) => framing := Framing.Complete(|buf|, 0);
      case StreamOpen(_, _, _) => framing := Framing.Complete(|buf|, 0);
      case StreamDone(_, _) => framing := Framing.Complete(|buf|, 0);
      case ExpectHead(head, kind) => framing := ExpectStep(buf, cfg, head, kind);
      case ExpectBody(head, kind) => framing := ExpectStep(buf, cfg, head, kind);
      case ScanBody(_, _, _) => framing := ScanStep(buf, cfg);
      case StreamBody(_, _, _, _) => framing := StreamStep(buf);
      case StreamKnown(_, _) => framing := KnownStep(buf);
      case AtHead => framing := HeadStep(tok, buf, cfg);
    }

    method ExpectStep(buf: bytes, cfg: Config, head: bytes, kind: BodyKind) returns (framing: Framing)
      modifies this`phase
      ensures F.Framed(Value(), framing) == F.ExpectStep(old(Value()), buf, cfg, head, kind)
    {
      hide F.ScanStep;
      match kind
      case Sized(n) =>
        framing := Framing.Complete(0, n);
      case ChunkFramed =>
        phase := ScanBody(Some(head), 0, SCAN_START);
        framing := ScanStep(buf, cfg);
    }

    // ----- deliveries

    /** Run the handler on one delivery; `call` is what it was given, if anything. */
    method Invoke(tok: Tokenizer, head: bytes, body: bytes, trailers: seq<C.Field>, stage: Stage, redriven: bool,
                    choice: Choice, draining: bool) returns (d: Dispatched, calls: seq<Dispatch>)
      ensures (d, calls) == Call(tok, Value(), head, body, trailers, stage, redriven, choice, draining)
    {
      hide F.MethodIsHead, HeadView, Negotiate;
      var view := HeadView(tok, index, head);
      if view.None? {
        return Done(SayFarewell(BUG, F.MethodIsHead(head))), [];
      }
      calls := [Dispatch(stage, head, view.value, body, trailers, redriven)];
      match choice
      case Respond(wantsClose, hasBody) =>
        d := Done(Negotiate(tok, view.value, wantsClose, hasBody, draining, Abandons(stage)));
      case Park(Retained) => d := Parking(ParkedRequest(head, stage, body, trailers, Retained));
      case Park(Streaming) => d := Parking(ParkedRequest(head, stage, [], [], Streaming));
      case Continue => d := if stage == Whole || stage == End then Done(Close) else Accepted;
    }

    method Settle(d: Dispatched, resume: Option<StreamPark>, ghost calls: seq<Dispatch>) returns (resp: Response)
      modifies this`phase
      ensures Result(Value(), resp, calls) == Glue.Settle(old(Value()), d, resume, calls)
    {
      match d
      case Done(r) => resp := r;
      case Parking(req) =>
        phase := Parked(req, resume);
        resp := Defer;
      case Accepted => resp := Close;
    }

    method Deliver(tok: Tokenizer, head: bytes, body: bytes, trailers: seq<C.Field>, stage: Stage, choice: Choice,
                   draining: bool)
      returns (resp: Response, calls: seq<Dispatch>)
      modifies this`phase
      ensures Result(Value(), resp, calls) == CallWhole(tok, old(Value()), head, body, trailers, stage, choice,
                                                        draining)
    {
      hide Call;
      var d;
      d, calls := Invoke(tok, head, body, trailers, stage, false, choice, draining);
      resp := Settle(d, None, calls);
    }

    /** What a streamed delivery leads to. */
    method StreamSettle(d: Dispatched, next: Phase, park: Phase, expects: bool, ghost calls: seq<Dispatch>)
      returns (resp: Response)
      modifies this`phase
      ensures Result(Value(), resp, calls) == Glue.StreamSettle(old(Value()), d, calls, next, park, expects)
    {
      match d
      case Accepted =>
        phase := next;
        resp := Invite(expects);
      case Done(r) => resp := ForceFinal(r);
      case Parking(_) => resp := Settle(d, Some(StreamPark(park, expects)), calls);
    }

    method OpenStream(tok: Tokenizer, head: bytes, expects: bool, kind: BodyKind, env: Env)
      returns (resp: Response, calls: seq<Dispatch>)
      modifies this`phase
      ensures Result(Value(), resp, calls) == OpenStep(tok, old(Value()), head, expects, kind, env)
    {
      hide Call, Glue.StreamSettle;
      if env.draining {
        return SayFarewell(503, F.MethodIsHead(head)), [];
      }
      var d;
      d, calls := Invoke(tok, head, [], [], Stage.Open, false, env.first, env.drainingAfter);
      var next := match kind
        case ChunkFramed => StreamBody(head, 0, false, 0)
        case Sized(len) => StreamKnown(head, len);
      resp := StreamSettle(d, next, next, expects, calls);
    }

    method ChunkWindow(tok: Tokenizer, was: Phase, header: bytes, body: bytes, env: Env)
      returns (resp: Response, calls: seq<Dispatch>)
      requires was.StreamBody?
      modifies this`phase
      ensures Result(Value(), resp, calls) == BodyWindowStep(tok, old(Value()), was, header, body, env)
    {
      hide Call, Glue.StreamSettle, W.NextChunk;
      var owed := was.chunkLeft;
      if owed == 0 {
        var s := W.NextChunk(header, was.afterPayload);
        owed := if s.ChunkAt? then s.payload else |body|;
      }
      var left := if owed > |body| then owed - |body| else 0;
      var d;
      d, calls := Invoke(tok, was.head, body, [], Window, false, env.first, env.drainingAfter);
      var next := StreamBody(was.head, left, left == 0, F.SatAdd(was.decoded, |body|));
      resp := StreamSettle(d, next, next, false, calls);
    }

    method KnownWindow(tok: Tokenizer, head: bytes, remaining: nat, body: bytes, env: Env)
      returns (resp: Response, calls: seq<Dispatch>)
      modifies this`phase
      ensures Result(Value(), resp, calls) == KnownWindowStep(tok, old(Value()), head, remaining, body, env)
    {
      hide Call, Glue.StreamSettle, CallWhole;
      var left := if remaining > |body| then remaining - |body| else 0;
      var d;
      d, calls := Invoke(tok, head, body, [], Window, false, env.first, env.drainingAfter);
      if d.Accepted? && left == 0 {
        var more;
        resp, more := Deliver(tok, head, [], [], End, env.second, env.drainingAfter);
        calls := calls + more;
      } else {
        var next := StreamKnown(head, left);
        resp := StreamSettle(d, next, if left == 0 then StreamDone(head, 0) else next, false, calls);
      }
    }

    /** The terminal block, compacted in a copy of its own for the trailers it carries. */
    method Finish(tok: Tokenizer, head: bytes, blockAt: nat, header: bytes, env: Env)
      returns (resp: Response, calls: seq<Dispatch>)
      modifies this`phase
      ensures Result(Value(), resp, calls) == DoneStep(tok, old(Value()), head, blockAt, header, env)
    {
      hide CallWhole, R.Decode;
      var block := header[Min(blockAt, |header|)..];
      var wire := new byte[|block|](i requires 0 <= i < |block| => block[i]);
      assert wire[..] == block;
      var compacted := R.Compact(wire);
      var trailers := [];
      if compacted.Some? {
        var fields := R.SplitAll(compacted.value.trailerLines);
        trailers := fields.value;
      }
      resp, calls := Deliver(tok, head, [], trailers, End, env.first, env.drainingAfter);
    }

    /** A whole chunked message: an allocation handed over is de-chunked in place, a borrowed view is decoded. */
    method Scanned(tok: Tokenizer, stash: Option<bytes>, header: bytes, body: Delivered, env: Env)
      returns (resp: Response, calls: seq<Dispatch>)
      modifies this`phase, if body.Owned? then {body.storage} else {}
      ensures Result(Value(), resp, calls) == ScannedStep(tok, old(Value()), stash, header, old(Content(body)), env)
    {
      hide CallWhole, R.Decode, F.MethodIsHead;
      var head := match stash case Some(h) => h case None => header;
      match body
      case Owned(storage) =>
        var c := R.Compact(storage);
        if c.None? {
          return SayFarewell(BUG, F.MethodIsHead(head)), [];
        }
        var fields := R.SplitAll(c.value.trailerLines);
        var entity := storage[c.value.start..c.value.start + c.value.len];
        resp, calls := Deliver(tok, head, entity, fields.value, Whole, env.first, env.drainingAfter);
      case Borrowed(bs) =>
        var decoded := R.DecodeWire(bs);
        if decoded.None? {
          return SayFarewell(BUG, F.MethodIsHead(head)), [];
        }
        resp, calls := Deliver(tok, head, decoded.value.entity, decoded.value.trailers, Whole, env.first,
                               env.drainingAfter);
    }

    /** A parked request's completion. */
    method Resolve(tok: Tokenizer, req: ParkedRequest, resume: Option<StreamPark>, env: Env)
      returns (resp: Response, calls: seq<Dispatch>)
      modifies this`phase
      ensures Result(Value(), resp, calls) == ParkedStep(tok, old(Value()), req, resume, env)
    {
      hide Call, CallWhole, HeadView, Negotiate, F.MethodIsHead;
      match env.outcome
      case Resume =>
        if resume.None? {
          return Close, [];
        }
        if resume.value.next.StreamDone? {
          resp, calls := Deliver(tok, req.head, [], [], End, env.first, env.drainingAfter);
        } else {
          phase := resume.value.next;
          return Invite(resume.value.expectInterim), [];
        }
      case Answered(wantsClose, hasBody) =>
        var view := HeadView(tok, index, req.head);
        var out := if view.None? then SayFarewell(BUG, F.MethodIsHead(req.head))
                   else Negotiate(tok, view.value, wantsClose, hasBody, env.drainingAfter, resume.Some?);
        return if resume.Some? then ForceFinal(out) else out, [];
      case Redrive =>
        resp, calls := RedriveParked(tok, req, resume, env);
    }

    method RedriveParked(tok: Tokenizer, req: ParkedRequest, resume: Option<StreamPark>, env: Env)
      returns (resp: Response, calls: seq<Dispatch>)
      requires env.outcome.Redrive?
      modifies this`phase
      ensures Result(Value(), resp, calls) == ParkedStep(tok, old(Value()), req, resume, env)
    {
      hide Call, CallWhole;
      var d;
      d, calls := Invoke(tok, req.head, req.body, req.trailers, req.stage, true, env.first, env.drainingAfter);
      if d.Accepted? && resume.Some? {
        if resume.value.next.StreamDone? {
          var more;
          resp, more := Deliver(tok, req.head, [], [], End, env.second, env.drainingAfter);
          calls := calls + more;
        } else {
          phase := resume.value.next;
          resp := Invite(resume.value.expectInterim);
        }
      } else {
        resp := Settle(d, resume, calls);
      }
    }

    /** One delivered message against the connection's phase. */
    method Step(tok: Tokenizer, header: bytes, body: Delivered, env: Env) returns (resp: Response, calls: seq<Dispatch>)
      modifies this`phase, if body.Owned? then {body.storage} else {}
      ensures Result(Value(), resp, calls) == Glue.Step(tok, old(Value()), header, old(Content(body)), env)
    {
      hide CallWhole, OpenStep, BodyWindowStep, KnownWindowStep, DoneStep, ScannedStep, ParkedStep, F.MethodIsHead;
      var was := phase;
      var bs := match body case Borrowed(b) => b case Owned(storage) => storage[..];
      phase := AtHead;
      match was
      case Fail(status, headOnly) => return SayFarewell(status, headOnly), [];
      case ExpectHead(head, kind) =>
        if env.draining {
          return SayFarewell(503, F.MethodIsHead(head)), [];
        }
        phase := ExpectBody(head, kind);
        return Reply(Interim), [];
      case ExpectBody(head, _) => resp, calls := Deliver(tok, head, bs, [], Whole, env.first, env.drainingAfter);
      case ScanDone(stash) => resp, calls := Scanned(tok, stash, header, body, env);
      case ScanBody(stash, _, _) =>
        return SayFarewell(BUG, F.MethodIsHead(match stash case Some(h) => h case None => header)), [];
      case AtHead => resp, calls := Deliver(tok, header, bs, [], Whole, env.first, env.drainingAfter);
      case StreamOpen(head, expects, kind) => resp, calls := OpenStream(tok, head, expects, kind, env);
      case StreamBody(_, _, _, _) => resp, calls := ChunkWindow(tok, was, header, bs, env);
      case StreamKnown(head, remaining) => resp, calls := KnownWindow(tok, head, remaining, bs, env);
      case StreamDone(head, blockAt) => resp, calls := Finish(tok, head, blockAt, header, env);
      case Parked(req, resume) => resp, calls := Resolve(tok, req, resume, env);
    }
  }
}
