/** Streamed bodies and parked requests keep the invariant. */
module ConnectionStreams {
  import opened Bytes
  import opened HttpTypes
  import opened Glue
  import opened Connection
  import opened ConnectionInvariant
  import opened ConnectionSteps
  import F = Framer
  import C = Chunked
  import W = ChunkWalk
  import R = ChunkedReaders

  // ----- calls in a stream

  /** A window may follow: the last call opened this stream or was a window of it. */
  lemma {:induction false} WindowOk(log: seq<Event>, d: Dispatch, head: bytes, view: View)
    requires LastCall(log).Some? && (LastCall(log).value.stage == Open || LastCall(log).value.stage == Window)
    requires CallsRead(log, head, view)
    requires !d.redriven && d.head == head && d.view == view && ShapeOk(d) && (d.stage == Window || d.stage == End)
    ensures CallOk(log, d)
  {
    hide LastCall;
  }

  /** The End that completes a stream serves the request. */
  lemma {:induction false} EndServed(tok: Tokenizer, lim: Limits, eaten: bytes, buf: bytes, log: seq<Event>, f: Facts,
                                     e: Dispatch)
    requires Sound(tok) && HasHead(tok, lim, eaten + buf, f)
             && CallsRead(log, (eaten + buf)[..f.len], TrueView(eaten + buf, f))
    requires Measured(lim, log) && Legal(log) && !Over(log) && Interims(log) == Due(f)
    requires LastCall(log).Some? && (LastCall(log).value.stage == Open || LastCall(log).value.stage == Window)
    requires Windowed(lim, f.body.kind)
    requires f.len <= |eaten| && IsBody(f.body.kind, eaten[f.len..])
    requires var c := Content(f.body.kind, eaten[f.len..]);
             && Windows(log) == c.entity
             && e == Dispatch(End, (eaten + buf)[..f.len], TrueView(eaten + buf, f), [], c.trailers, false)
    ensures CallOk(log, e)
    ensures Served(tok, lim, eaten, log + [Called(e)], f)
  {
    hide Legal, LastCall, Interims, Windows, IsBody, Content, HasHead, TrueView;
    WindowOk(log, e, e.head, e.view);
    PushCall(log, e);
    HeadKept(tok, lim, eaten + buf, eaten[f.len..], f);
    TakeAppend(eaten, buf, f.len);
    assert eaten[..f.len] + eaten[f.len..] == eaten;
    Empties(Windows(log));
  }

  lemma {:induction false} EventsAfter(d: Dispatch, calls: seq<Dispatch>, log: seq<Event>)
    ensures log + Events([d] + calls) == log + [Called(d)] + Events(calls)
  {
    var all := [d] + calls;
    assert all[1..] == calls;
    assert Events(all) == [Called(d)] + Events(calls);
    AppendAppend(log, [Called(d)], Events(calls));
  }

  /** The End call made right behind the delivery that finished the body. */
  lemma {:induction false} EndCalled(tok: Tokenizer, lim: Limits, past: seq<Exchange>, conn: Conn, eaten: bytes,
                                     buf: bytes, log: seq<Event>, f: Facts, trailers: seq<C.Field>, choice: Choice,
                                     draining: bool)
    requires Sound(tok) && conn.phase == AtHead && conn.streamCap == lim.streamCap && PastOk(tok, lim, past)
    requires Mid(tok, lim, conn, eaten + buf, log, f)
    requires Legal(log) && !Over(log) && Interims(log) == Due(f)
    requires LastCall(log).Some? && (LastCall(log).value.stage == Open || LastCall(log).value.stage == Window)
    requires Windowed(lim, f.body.kind)
    requires f.len <= |eaten| && IsBody(f.body.kind, eaten[f.len..])
    requires Content(f.body.kind, eaten[f.len..]) == R.Decoded(Windows(log), trailers)
    ensures var r := EndCall(tok, conn, (eaten + buf)[..f.len], trailers, choice, draining);
            Inv(tok, lim, Conclude(past, r.conn, eaten, buf, log + Events(r.calls), r.resp))
  {
    hide Legal, LastCall, Interims, Windows, IsBody, Content, TrueView, CallOk, Served, CallWhole, Conclude, Inv;
    var wire := eaten + buf;
    var e := Dispatch(End, wire[..f.len], TrueView(wire, f), [], trailers, false);
    EndServed(tok, lim, eaten, buf, log, f, e);
    FinalCall(tok, lim, past, conn, eaten, buf, log, f, e, choice, draining);
  }

  // ----- known lengths

  /** A window more is so many bytes less to come. */
  lemma {:induction false} KnownMoves(eaten: bytes, body: bytes, log: seq<Event>, f: Facts, remaining: nat, d: Dispatch)
    requires KnownAt(eaten, log, f, remaining) && |body| <= remaining
    requires Legal(log) && !Over(log) && CallOk(log, d) && d.stage == Window && !d.redriven && d.body == body
    ensures KnownAt(eaten + body, log + [Called(d)], f, remaining - |body|)
    ensures |Windows(log + [Called(d)])| + (remaining - |body|) == |Windows(log)| + remaining
    ensures LastCall(log + [Called(d)]) == Some(d) && Legal(log + [Called(d)]) && !Over(log + [Called(d)])
    ensures Interims(log + [Called(d)]) == Interims(log)
  {
    hide Legal, LastCall, Windows, Interims, CallOk;
    PushCall(log, d);
    DropAppend(eaten, body, f.len);
  }

  /** Everything needed about a request in the middle of a stream, once `body` is taken off the buffer. */
  ghost predicate InStream(tok: Tokenizer, lim: Limits, sys: Sys, f: Facts) {
    && Sound(tok) && Inv(tok, lim, sys) && sys.open
    && Mid(tok, lim, sys.conn, sys.eaten + sys.buf, sys.log, f)
    && StreamAt(lim, sys.eaten, sys.eaten + sys.buf, sys.log, f, sys.conn.phase) && Interims(sys.log) == Due(f)
  }

  lemma {:induction false} StepKnown(tok: Tokenizer, conn: Conn, header: bytes, body: bytes, env: Env)
    requires conn.phase.StreamKnown?
    ensures Step(tok, conn, header, body, env) ==
            KnownWindowStep(tok, conn.(phase := AtHead), conn.phase.head, conn.phase.remaining, body, env)
  {
    hide KnownWindowStep;
  }

  lemma {:induction false} PumpKnown(tok: Tokenizer, lim: Limits, sys: Sys, f: Facts, env: Env)
    requires InStream(tok, lim, sys, f) && sys.conn.phase.StreamKnown?
    ensures Inv(tok, lim, Deliver(tok, lim, sys, F.Frame(tok, sys.conn, sys.buf, lim.cfg), env))
  {
    SameCap(tok, lim, sys);
    var conn := sys.conn;
    var n := Min(conn.phase.remaining, F.STREAM_WINDOW);
    var framed := F.Frame(tok, conn, sys.buf, lim.cfg);
    hide Inv, Mid, Step, Record, Legal, Traced, PastOk, Over;
    if sys.buf == [] {
      DeliverMore(tok, lim, sys, framed, env);
    } else if !(0 < n <= lim.reactorCap) {
      DeliverShut(tok, lim, sys, conn, 0, n, env);
    } else if n <= |sys.buf| {
      DeliverWhole(tok, lim, sys, conn, 0, n, env);
      assert sys.buf[0..n] == sys.buf[..n];
      StepKnown(tok, conn, sys.buf[..0], sys.buf[..n], env);
      KnownDelivered(tok, lim, sys, f, n, env);
    }
  }

  lemma {:induction false} KnownDelivered(tok: Tokenizer, lim: Limits, sys: Sys, f: Facts, n: nat, env: Env)
    requires InStream(tok, lim, sys, f) && sys.conn.phase.StreamKnown?
    requires 0 < n <= |sys.buf| && n == Min(sys.conn.phase.remaining, F.STREAM_WINDOW)
    ensures var p := sys.conn.phase;
            Inv(tok, lim, Record(sys, n,
              KnownWindowStep(tok, sys.conn.(phase := AtHead), p.head, p.remaining, sys.buf[..n], env)))
  {
    hide Inv, Legal, LastCall, Windows, Interims, Traced, PastOk, Over, CallOk, Conclude, KnownWindowStep, TrueView,
         Measured, KnownAt, KnownOutcome, Events;
    SameCap(tok, lim, sys);
    var wire, body := sys.eaten + sys.buf, sys.buf[..n];
    var eaten, buf, conn := sys.eaten + body, sys.buf[n..], sys.conn.(phase := AtHead);
    var head, remaining := sys.conn.phase.head, sys.conn.phase.remaining;
    Cut(sys.eaten, sys.buf, n);
    var d := Dispatch(Window, head, TrueView(wire, f), body, [], false);
    WindowOk(sys.log, d, head, d.view);
    KnownMoves(sys.eaten, body, sys.log, f, remaining, d);
    var left := remaining - n;
    KnownSettles(tok, lim, sys.past, conn, eaten, buf, sys.log, f, d, left, env);
    KnownIs(tok, conn, head, remaining, body, env);
  }

  /** The known-length window step: the End follows at once when the last window is accepted. */
  function KnownOutcome(tok: Tokenizer, conn: Conn, d: Dispatch, left: nat, env: Env): Result {
    var (c, calls) := Call(tok, conn, d.head, d.body, d.trailers, d.stage, d.redriven, env.first, env.drainingAfter);
    if c.Accepted? && left == 0 then After(EndCall(tok, conn, d.head, [], env.second, env.drainingAfter), calls)
    else StreamSettle(conn, c, calls, StreamKnown(d.head, left),
                      if left == 0 then StreamDone(d.head, 0) else StreamKnown(d.head, left), false)
  }

  lemma {:induction false} KnownIs(tok: Tokenizer, conn: Conn, head: bytes, remaining: nat, body: bytes, env: Env)
    requires |body| <= remaining
    ensures forall view: View ::
              KnownWindowStep(tok, conn, head, remaining, body, env) ==
              KnownOutcome(tok, conn, Dispatch(Window, head, view, body, [], false), remaining - |body|, env)
  {
    hide Call, StreamSettle, EndCall;
  }

  lemma {:induction false} KnownSettles(tok: Tokenizer, lim: Limits, past: seq<Exchange>, conn: Conn, eaten: bytes,
                                        buf: bytes, log: seq<Event>, f: Facts, d: Dispatch, left: nat, env: Env)
    requires Sound(tok) && conn.phase == AtHead && conn.streamCap == lim.streamCap && PastOk(tok, lim, past)
    requires Legal(log) && !Over(log) && Mid(tok, lim, conn, eaten + buf, log, f) && Interims(log) == Due(f)
    requires d.stage == Window && CallOk(log, d) && d.head == (eaten + buf)[..f.len]
             && d.view == TrueView(eaten + buf, f)
    requires Windowed(lim, f.body.kind)
    requires var log1 := log + [Called(d)];
             && KnownAt(eaten, log1, f, left) && Capped(lim, |Windows(log1)| + left)
             && LastCall(log1) == Some(d) && Legal(log1) && !Over(log1) && Interims(log1) == Due(f)
    ensures var r := KnownOutcome(tok, conn, d, left, env);
            Inv(tok, lim, Conclude(past, r.conn, eaten, buf, log + Events(r.calls), r.resp))
  {
    hide Inv, Legal, LastCall, Windows, Interims, PastOk, Over, CallOk, Conclude, TrueView, EndCall, StreamSettle,
         HeadView, Events, Call, KnownAt, Measured, CallsRead;
    var log1 := log + [Called(d)];
    if env.first.Continue? && left == 0 {
      ViewFound(tok, lim, conn, eaten + buf, f);
      GoesOn(tok, conn, d, env.drainingAfter);
      EndBehind(tok, lim, past, conn, eaten, buf, log, f, d, env.second, env.drainingAfter);
    } else {
      var next := StreamKnown(d.head, left);
      var park := if left == 0 then StreamDone(d.head, 0) else next;
      AcceptedOnly(tok, conn, d, env.first, env.drainingAfter);
      StreamCall(tok, lim, past, conn, eaten, buf, log, f, d, next, park, false, env.first, env.drainingAfter);
    }
  }

  lemma {:induction false} GoesOn(tok: Tokenizer, conn: Conn, d: Dispatch, draining: bool)
    requires HeadView(tok, conn.index, d.head) == Some(d.view) && (d.stage == Window || d.stage == Open)
    ensures Call(tok, conn, d.head, d.body, d.trailers, d.stage, d.redriven, Continue, draining) == (Accepted, [d])
  {
    hide HeadView;
  }

  lemma {:induction false} EndBehind(tok: Tokenizer, lim: Limits, past: seq<Exchange>, conn: Conn, eaten: bytes,
                                     buf: bytes, log: seq<Event>, f: Facts, d: Dispatch, choice: Choice, draining: bool)
    requires Sound(tok) && conn.phase == AtHead && conn.streamCap == lim.streamCap && PastOk(tok, lim, past)
    requires HasHead(tok, lim, eaten + buf, f) && conn.index == IndexOf(f)
    requires d.stage == Window && d.head == (eaten + buf)[..f.len] && d.view == TrueView(eaten + buf, f)
    requires Windowed(lim, f.body.kind)
    requires var log1 := log + [Called(d)];
             && KnownAt(eaten, log1, f, 0) && Capped(lim, |Windows(log1)|)
             && LastCall(log1) == Some(d) && Legal(log1) && !Over(log1) && Interims(log1) == Due(f)
    ensures var r := After(EndCall(tok, conn, d.head, [], choice, draining), [d]);
            Inv(tok, lim, Conclude(past, r.conn, eaten, buf, log + Events(r.calls), r.resp))
  {
    hide Inv, Legal, LastCall, Windows, Interims, PastOk, Over, Conclude, TrueView, EndCall, Events;
    EndCalled(tok, lim, past, conn, eaten, buf, log + [Called(d)], f, [], choice, draining);
    EventsAfter(d, EndCall(tok, conn, d.head, [], choice, draining).calls, log);
  }

  lemma {:induction false} AcceptedOnly(tok: Tokenizer, conn: Conn, d: Dispatch, choice: Choice, draining: bool)
    ensures Call(tok, conn, d.head, d.body, d.trailers, d.stage, d.redriven, choice, draining).0.Accepted? ==>
              choice.Continue?
  {
    hide HeadView;
  }

  // ----- chunked streams

  /** Where the machine stands inside a chunk once its framing is read. */
  ghost predicate InChunk(body: bytes, windows: bytes, owed: nat) {
    C.Run(body, C.INIT) == C.Outcome(C.More, |body|, C.Machine(|windows|, 0, C.Data(owed)), windows, [])
  }

  lemma {:induction false} EntersChunk(eaten: bytes, buf: bytes, log: seq<Event>, f: Facts, after: bool, decoded: nat)
    requires ChunkedAt(eaten, log, f, 0, after, decoded) && W.NextChunk(buf, after).ChunkAt?
    ensures var s := W.NextChunk(buf, after);
            && 0 < s.framing <= |buf| && s.payload > 0 && W.NextChunk(buf[..s.framing], after) == s
            && InChunk((eaten + buf[..s.framing])[f.len..], Windows(log), s.payload)
  {
    hide C.Run, C.TakeTurn, W.NextChunk, Windows;
    var s := W.NextChunk(buf, after);
    W.ChunkAgrees(buf, |Windows(log)|, after);
    var header := buf[..s.framing];
    W.Chain(eaten[f.len..], header, C.INIT);
    DropAppend(eaten, header, f.len);
    Empties(Windows(log));
  }

  /** Payload taken inside a chunk is handed over byte for byte. */
  lemma {:induction false} ChunkedMoves(eaten: bytes, body: bytes, log: seq<Event>, f: Facts, owed: nat, decoded: nat,
                                        d: Dispatch)
    requires f.body == BodyOk(ChunkFramed) && f.len <= |eaten| && InChunk(eaten[f.len..], Windows(log), owed)
    requires 0 < |body| <= owed && decoded == Min(|Windows(log)|, USIZE_MAX)
    requires Legal(log) && !Over(log) && CallOk(log, d) && d.stage == Window && !d.redriven && d.body == body
    ensures var log1, left := log + [Called(d)], owed - |body|;
            && ChunkedAt(eaten + body, log1, f, left, left == 0, F.SatAdd(decoded, |body|))
            && |Windows(log1)| + left == |Windows(log)| + owed
            && LastCall(log1) == Some(d)
  {
    hide C.Run, C.TakeTurn, Windows, Legal, LastCall, Interims, CallOk;
    PushCall(log, d);
    W.DataRuns(body, |Windows(log)|, owed);
    W.Chain(eaten[f.len..], body, C.INIT);
    DropAppend(eaten, body, f.len);
  }

  /** What a window delivery of a chunked stream does, given the payload owed by the chunk it is in. */
  function ChunkOutcome(tok: Tokenizer, conn: Conn, d: Dispatch, left: nat, decoded: nat, env: Env): Result {
    var (c, calls) := Call(tok, conn, d.head, d.body, d.trailers, d.stage, d.redriven, env.first, env.drainingAfter);
    var next := StreamBody(d.head, left, left == 0, decoded);
    StreamSettle(conn, c, calls, next, next, false)
  }

  lemma {:induction false} StepChunk(tok: Tokenizer, conn: Conn, header: bytes, body: bytes, owed: nat, view: View,
                                     env: Env)
    requires conn.phase.StreamBody? && |body| <= owed
    requires if conn.phase.chunkLeft > 0 then owed == conn.phase.chunkLeft
             else W.NextChunk(header, conn.phase.afterPayload).ChunkAt?
                  && W.NextChunk(header, conn.phase.afterPayload).payload == owed
    ensures Step(tok, conn, header, body, env) ==
            ChunkOutcome(tok, conn.(phase := AtHead), Dispatch(Window, conn.phase.head, view, body, [], false),
                         owed - |body|,
                         F.SatAdd(conn.phase.decoded, |body|), env)
  {
    hide Call, StreamSettle, W.NextChunk;
  }

  lemma {:induction false} ChunkSettles(tok: Tokenizer, lim: Limits, past: seq<Exchange>, conn: Conn, eaten: bytes,
                                        buf: bytes, log: seq<Event>, f: Facts, d: Dispatch, left: nat, decoded: nat,
                                        env: Env)
    requires Sound(tok) && conn.phase == AtHead && conn.streamCap == lim.streamCap && PastOk(tok, lim, past)
    requires Legal(log) && !Over(log) && Mid(tok, lim, conn, eaten + buf, log, f) && Interims(log) == Due(f)
    requires d.stage == Window && CallOk(log, d) && d.head == (eaten + buf)[..f.len]
             && d.view == TrueView(eaten + buf, f)
    requires Windowed(lim, f.body.kind)
    requires var log1 := log + [Called(d)];
             && ChunkedAt(eaten, log1, f, left, left == 0, decoded) && Capped(lim, |Windows(log1)| + left)
             && LastCall(log1) == Some(d)
    ensures var r := ChunkOutcome(tok, conn, d, left, decoded, env);
            Inv(tok, lim, Conclude(past, r.conn, eaten, buf, log + Events(r.calls), r.resp))
  {
    hide Inv, Legal, LastCall, Windows, Interims, PastOk, Over, CallOk, Conclude, TrueView, Call, StreamSettle, Events,
         ChunkedAt;
    var next := StreamBody(d.head, left, left == 0, decoded);
    assert StreamAt(lim, eaten, eaten + buf, log + [Called(d)], f, next);
    StreamCall(tok, lim, past, conn, eaten, buf, log, f, d, next, next, false, env.first, env.drainingAfter);
  }

  lemma {:induction false} CutTwice(eaten: bytes, buf: bytes, h: nat, n: nat)
    requires h + n <= |buf|
    ensures eaten + buf[..h] + buf[h..h + n] == eaten + buf[..h + n]
    ensures eaten + buf[..h + n] + buf[h + n..] == eaten + buf
  {
    Cut(eaten, buf, h + n);
    AppendAppend(eaten, buf[..h], buf[h..h + n]);
    assert buf[..h] + buf[h..h + n] == buf[..h + n];
  }

  /** A window of the chunk the stream is in: `h` framing bytes, then `n` of the payload it owes. */
  lemma {:induction false} ChunkDelivered(tok: Tokenizer, lim: Limits, sys: Sys, f: Facts, h: nat, n: nat, owed: nat,
                                          env: Env)
    requires InStream(tok, lim, sys, f) && sys.conn.phase.StreamBody?
    requires h + n <= |sys.buf| && 0 < n <= owed && n <= F.STREAM_WINDOW
    requires InChunk((sys.eaten + sys.buf[..h])[f.len..], Windows(sys.log), owed)
    requires Capped(lim, |Windows(sys.log)| + owed)
    requires if sys.conn.phase.chunkLeft > 0 then owed == sys.conn.phase.chunkLeft
             else W.NextChunk(sys.buf[..h], sys.conn.phase.afterPayload).ChunkAt?
                  && W.NextChunk(sys.buf[..h], sys.conn.phase.afterPayload).payload == owed
    ensures Inv(tok, lim, Record(sys, h + n, Step(tok, sys.conn, sys.buf[..h], sys.buf[h..h + n], env)))
  {
    hide Inv, Legal, LastCall, Windows, Interims, Traced, PastOk, Over, CallOk, Conclude, Step, InChunk, W.NextChunk,
         C.Run, TrueView, ChunkOutcome, Measured, Events;
    SameCap(tok, lim, sys);
    var wire, body, p := sys.eaten + sys.buf, sys.buf[h..h + n], sys.conn.phase;
    var eaten, buf, conn := sys.eaten + sys.buf[..h + n], sys.buf[h + n..], sys.conn.(phase := AtHead);
    CutTwice(sys.eaten, sys.buf, h, n);
    var d := Dispatch(Window, p.head, TrueView(wire, f), body, [], false);
    WindowOk(sys.log, d, p.head, d.view);
    ChunkedMoves(sys.eaten + sys.buf[..h], body, sys.log, f, owed, p.decoded, d);
    StepChunk(tok, sys.conn, sys.buf[..h], body, owed, d.view, env);
    ChunkSettles(tok, lim, sys.past, conn, eaten, buf, sys.log, f, d, owed - n, F.SatAdd(p.decoded, n), env);
  }

  /** The terminal block completes the body, and its trailers are the body's trailers. */
  lemma {:induction false} LastBlock(eaten: bytes, buf: bytes, log: seq<Event>, f: Facts, after: bool, decoded: nat)
    requires ChunkedAt(eaten, log, f, 0, after, decoded) && W.NextChunk(buf, after).LastAt?
    ensures var n, at := W.NextChunk(buf, after).framing, if after then 2 else 0;
            && 0 < n <= |buf| && at <= n
            && var body := (eaten + buf[..n])[f.len..];
               && R.Decode(body) == Some(R.Decoded(Windows(log), BlockTrailers(buf[..n][at..])))
  {
    hide C.Run, C.TakeTurn, W.NextChunk, Windows, R.Decode;
    var n, at := W.NextChunk(buf, after).framing, if after then 2 else 0;
    W.LastAgrees(buf, |Windows(log)|, after);
    assert at == |W.Closing(after)|;
    var header := buf[..n];
    var body := (eaten + header)[f.len..];
    W.Chain(eaten[f.len..], header, C.INIT);
    DropAppend(eaten, header, f.len);
    R.DecodeIsRun(body);
    R.DecodeIsRun(header[at..]);
    Empties(Windows(log));
    Empties(C.Run(header, W.Boundary(|Windows(log)|, after)).lines);
  }

  lemma {:induction false} StepDone(tok: Tokenizer, conn: Conn, header: bytes, body: bytes, env: Env)
    requires conn.phase.StreamDone? && conn.phase.blockAt <= |header|
    ensures Step(tok, conn, header, body, env) ==
            EndCall(tok, conn.(phase := AtHead), conn.phase.head, BlockTrailers(header[conn.phase.blockAt..]),
                    env.first, env.drainingAfter)
  {
    hide EndCall, BlockTrailers;
  }

  lemma {:induction false} LastDelivered(tok: Tokenizer, lim: Limits, sys: Sys, f: Facts, env: Env)
    requires InStream(tok, lim, sys, f) && sys.conn.phase.StreamBody? && sys.conn.phase.chunkLeft == 0
    requires W.NextChunk(sys.buf, sys.conn.phase.afterPayload).LastAt?
    ensures var p := sys.conn.phase;
            var done := sys.conn.(phase := StreamDone(p.head, if p.afterPayload then 2 else 0));
            Inv(tok, lim, Deliver(tok, lim, sys, F.Framed(done,
              Framing.Complete(W.NextChunk(sys.buf, p.afterPayload).framing, 0)), env))
  {
    hide Inv, Legal, LastCall, Windows, Interims, Traced, PastOk, Over, Step, W.NextChunk, C.Run,
         TrueView, Measured, Deliver, Record, R.Decode, BlockTrailers, EndCall;
    SameCap(tok, lim, sys);
    var p := sys.conn.phase;
    var n, at := W.NextChunk(sys.buf, p.afterPayload).framing, if p.afterPayload then 2 else 0;
    var done := sys.conn.(phase := StreamDone(p.head, at));
    LastBlock(sys.eaten, sys.buf, sys.log, f, p.afterPayload, p.decoded);
    if !(0 < n <= lim.reactorCap) {
      DeliverShut(tok, lim, sys, done, n, 0, env);
    } else {
      DeliverWhole(tok, lim, sys, done, n, 0, env);
      StepDone(tok, done, sys.buf[..n], sys.buf[n..n + 0], env);
      LastCalled(tok, lim, sys, f, n, BlockTrailers(sys.buf[..n][at..]), env);
    }
  }

  lemma {:induction false} LastCalled(tok: Tokenizer, lim: Limits, sys: Sys, f: Facts, n: nat, trailers: seq<C.Field>,
                                      env: Env)
    requires InStream(tok, lim, sys, f) && sys.conn.phase.StreamBody? && n <= |sys.buf|
    requires R.Decode((sys.eaten + sys.buf[..n])[f.len..]) == Some(R.Decoded(Windows(sys.log), trailers))
    ensures Inv(tok, lim, Record(sys, n,
              EndCall(tok, sys.conn.(phase := AtHead), sys.conn.phase.head, trailers, env.first, env.drainingAfter)))
  {
    hide Inv, Legal, LastCall, Windows, Interims, Traced, PastOk, Over, C.Run, TrueView, Measured, R.Decode, EndCall,
         Conclude;
    SameCap(tok, lim, sys);
    Cut(sys.eaten, sys.buf, n);
    EndCalled(tok, lim, sys.past, sys.conn.(phase := AtHead), sys.eaten + sys.buf[..n], sys.buf[n..], sys.log, f,
              trailers, env.first, env.drainingAfter);
  }

  /** What the walk refuses it refuses with a status of its own. */
  lemma {:induction false} WalkStatus(buf: bytes, after: bool)
    ensures var s := W.NextChunk(buf, after); s.Malformed? ==> s.status == 400 || s.status == 431
  {
    hide C.Run, FindCrlf, C.ParseSizeLine, HasBareCrLf;
    C.RunStops(buf, C.INIT);
    if |buf| >= 2 {
      C.RunStops(buf[2..], C.INIT);
    }
  }

  lemma {:induction false} PumpStream(tok: Tokenizer, lim: Limits, sys: Sys, f: Facts, env: Env)
    requires InStream(tok, lim, sys, f) && sys.conn.phase.StreamBody?
    ensures Inv(tok, lim, Deliver(tok, lim, sys, F.Frame(tok, sys.conn, sys.buf, lim.cfg), env))
  {
    hide Inv, Legal, LastCall, Windows, Interims, Traced, PastOk, Over, Step, W.NextChunk, C.Run,
         TrueView, Measured, Deliver, Record, Mid, HasHead;
    SameCap(tok, lim, sys);
    var p, framed := sys.conn.phase, F.StreamStep(sys.conn, sys.buf);
    if p.chunkLeft > 0 {
      Empties(sys.eaten);
      assert InChunk((sys.eaten + [])[f.len..], Windows(sys.log), p.chunkLeft);
      ChunkFramedAs(tok, lim, sys, f, 0, p.chunkLeft, env);
    } else {
      var s := W.NextChunk(sys.buf, p.afterPayload);
      WalkStatus(sys.buf, p.afterPayload);
      match s
      case Wait => DeliverMore(tok, lim, sys, framed, env);
      case Malformed(status) => Failing(tok, lim, sys, sys.conn, framed, env);
      case LastAt(_) => LastDelivered(tok, lim, sys, f, env);
      case ChunkAt(framing, payload) =>
        if sys.conn.streamCap.Some? && F.SatAdd(p.decoded, payload) > sys.conn.streamCap.value {
          Failing(tok, lim, sys, sys.conn, framed, env);
        } else {
          EntersChunk(sys.eaten, sys.buf, sys.log, f, p.afterPayload, p.decoded);
          ChunkFramedAs(tok, lim, sys, f, framing, payload, env);
        }
    }
  }

  /** A framed window: past the reactor's cap, not all there yet, or delivered. */
  lemma {:induction false} ChunkFramedAs(tok: Tokenizer, lim: Limits, sys: Sys, f: Facts, h: nat, owed: nat, env: Env)
    requires InStream(tok, lim, sys, f) && sys.conn.phase.StreamBody?
    requires h <= |sys.buf| && 0 < owed
    requires InChunk((sys.eaten + sys.buf[..h])[f.len..], Windows(sys.log), owed)
    requires Capped(lim, |Windows(sys.log)| + owed)
    requires if sys.conn.phase.chunkLeft > 0 then owed == sys.conn.phase.chunkLeft
             else W.NextChunk(sys.buf[..h], sys.conn.phase.afterPayload).ChunkAt?
                  && W.NextChunk(sys.buf[..h], sys.conn.phase.afterPayload).payload == owed
    ensures Inv(tok, lim, Deliver(tok, lim, sys, F.Framed(sys.conn,
                                                  Framing.Complete(h, Min(owed, F.STREAM_WINDOW))), env))
  {
    hide Inv, Legal, LastCall, Windows, Interims, Traced, PastOk, Over, Step, W.NextChunk, C.Run,
         TrueView, Measured, Record, Mid, HasHead, InChunk;
    SameCap(tok, lim, sys);
    var n := Min(owed, F.STREAM_WINDOW);
    if !(0 < h + n <= lim.reactorCap) {
      DeliverShut(tok, lim, sys, sys.conn, h, n, env);
    } else if h + n <= |sys.buf| {
      DeliverWhole(tok, lim, sys, sys.conn, h, n, env);
      ChunkDelivered(tok, lim, sys, f, h, n, owed, env);
    }
  }
}
