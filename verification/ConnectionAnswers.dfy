/** Who decides what a client is told: when a connection is kept, and which farewells carry no body. */
module ConnectionAnswers {
  import opened Bytes
  import opened HttpTypes
  import opened Glue
  import opened Connection
  import opened ConnectionInvariant
  import opened ConnectionSteps
  import opened ConnectionSafety
  import F = Framer
  import W = ChunkWalk
  import R = ChunkedReaders
  import H = HttpHead

  // ----- the method of a head

  const HEAD_SP: bytes := [72, 69, 65, 68, 32]

  /** Nothing but line breaks. */
  predicate Breaks(b: bytes)
    decreases |b|
  {
    || b == []
    || (|b| >= 2 && b[0] == CR && b[1] == LF && Breaks(b[2..]))
    || (b[0] == LF && Breaks(b[1..]))
  }

  /** The method is `HEAD` exactly when that word and a blank come first, behind line breaks at most. */
  lemma {:induction false} MethodIsHeadIff(b: bytes)
    ensures F.MethodIsHead(b) <==> exists n :: 0 <= n <= |b| && Breaks(b[..n]) && HEAD_SP <= b[n..]
    decreases |b|
  {
    if F.MethodIsHead(b) {
      var n := BreaksThenHead(b);
    } else {
      forall n | 0 <= n <= |b| && Breaks(b[..n])
        ensures !(HEAD_SP <= b[n..])
      {
        NoHeadBehind(b, n);
      }
    }
  }

  lemma {:induction false} BreaksThenHead(b: bytes) returns (n: nat)
    requires F.MethodIsHead(b)
    ensures n <= |b| && Breaks(b[..n]) && HEAD_SP <= b[n..]
    decreases |b|
  {
    if |b| >= 2 && b[0] == CR && b[1] == LF {
      var k := BreaksThenHead(b[2..]);
      n := k + 2;
      assert b[..n][2..] == b[2..][..k] && b[2..][k..] == b[n..];
    } else if |b| >= 1 && b[0] == LF {
      var k := BreaksThenHead(b[1..]);
      n := k + 1;
      assert b[..n][1..] == b[1..][..k] && b[1..][k..] == b[n..];
    } else {
      n := 0;
    }
  }

  lemma {:induction false} NoHeadBehind(b: bytes, n: nat)
    requires n <= |b| && Breaks(b[..n]) && !F.MethodIsHead(b)
    ensures !(HEAD_SP <= b[n..])
    decreases |b|
  {
    if n == 0 {
      assert b[0..] == b;
      HeadHere(b);
    } else {
      var front := b[..n];
      assert front[0] == b[0];
      if b[0] == LF {
        assert front[1..] == b[1..][..n - 1];
        DropDrop(b, 1, n - 1);
        NoHeadBehind(b[1..], n - 1);
      } else {
        assert front[1] == b[1];
        assert front[2..] == b[2..][..n - 2];
        DropDrop(b, 2, n - 2);
        NoHeadBehind(b[2..], n - 2);
      }
    }
  }

  lemma {:induction false} HeadHere(b: bytes)
    ensures HEAD_SP <= b ==> F.MethodIsHead(b)
  {
    if HEAD_SP <= b {
      assert b[0] == HEAD_SP[0] && b[..5] == HEAD_SP;
    }
  }

  /** A head of at least one line that ends in a line break names its method whatever follows it. */
  lemma {:induction false} MethodStays(h: bytes, more: bytes)
    requires h != [] && h[|h| - 1] == LF && !Breaks(h)
    ensures F.MethodIsHead(h + more) == F.MethodIsHead(h)
    decreases |h|
  {
    var all := h + more;
    assert Breaks([]);
    if |h| >= 2 && h[0] == CR && h[1] == LF {
      assert all[2..] == h[2..] + more && h[2..] != [];
      MethodStays(h[2..], more);
    } else if h[0] == LF {
      assert all[1..] == h[1..] + more && h[1..] != [];
      MethodStays(h[1..], more);
    } else {
      assert |h| >= 2 && all[0] == h[0] && all[1] == h[1];
      assert all[|h| - 1] == LF;
      if |all| >= 5 && all[..5] == HEAD_SP {
        assert forall i :: 0 <= i < 5 ==> all[i] == HEAD_SP[i];
        assert all[..5] == h[..5];
      } else if |h| >= 5 {
        assert all[..5] == h[..5];
      }
    }
  }

  /** A head that tokenizes has a line, and ends in a line break (section 2.1 of RFC 9112). */
  ghost predicate WholeHeads(tok: Tokenizer) {
    forall b: bytes {:trigger tok.parse(b)} :: HeadIsWhole(tok, b)
  }

  predicate HeadIsWhole(tok: Tokenizer, b: bytes) {
    match tok.parse(b)
    case Parsed(f) => 0 < f.len <= |b| && b[f.len - 1] == LF && !Breaks(b[..f.len])
    case _ => true
  }

  lemma {:induction false} HeadNamesMethod(tok: Tokenizer, b: bytes, f: Facts)
    requires WholeHeads(tok) && tok.parse(b) == Parsed(f)
    ensures f.len <= |b| && F.MethodIsHead(b[..f.len]) == F.MethodIsHead(b)
  {
    assert HeadIsWhole(tok, b);
    assert b == b[..f.len] + b[f.len..];
    MethodStays(b[..f.len], b[f.len..]);
  }

  // ----- who answers

  /** An answer as a handler or a worker gave it: whether it asks to close, and whether it has a body. */
  datatype Ask = Ask(close: bool, body: bool)

  function AskOf(choice: Choice): Option<Ask> {
    match choice
    case Respond(wantsClose, hasBody) => Some(Ask(wantsClose, hasBody))
    case _ => None
  }

  /** The word of the handler called last in one delivery of so many calls. */
  function ChoiceOf(env: Env, calls: nat): Choice {
    if calls <= 1 then env.first else env.second
  }

  /** Who has the word after `calls` handler calls in one delivery: the worker, or the handler called last. */
  function Asked(env: Env, calls: nat): Option<Ask> {
    if calls == 0 then
      match env.outcome
      case Answered(wantsClose, hasBody) => Some(Ask(wantsClose, hasBody))
      case _ => None
    else AskOf(ChoiceOf(env, calls))
  }

  predicate Answers(resp: Response) {
    resp.ReplyVectored? || resp == Reply(Answer) || resp == ReplyClose(Answer)
  }

  predicate IsFarewell(resp: Response) {
    resp.ReplyClose? && resp.what.Farewell?
  }

  /** The handler has been told that the request is complete. */
  predicate Told(log: seq<Event>) {
    LastCall(log).Some? && (LastCall(log).value.stage == Whole || LastCall(log).value.stage == End)
  }

  /** What a handler's word leads to: its answer, a park, or reading on, which is no answer to a complete request. */
  predicate Follows(choice: Choice, told: bool, resp: Response) {
    match choice
    case Respond(_, _) => Answers(resp)
    case Park(_) => resp == Defer
    case Continue => if told then resp == Close else resp == Reply(Interim) || resp == Reply(Nothing)
  }

  /**
    A response is the handler's or the worker's own answer, or the codec's; it keeps the connection exactly
    when the request is complete, the head lets it persist, the answer does not ask to close, and the server
    is not draining; a farewell knows whether it answers `HEAD`; and nothing is parked but what asks for it.
  */
  predicate Replied(tok: Tokenizer, wire: bytes, log: seq<Event>, env: Env, r: Result) {
    var full, ask := log + Events(r.calls), Asked(env, |r.calls|);
    && (IsFarewell(r.resp) ==> r.resp.what.headOnly == F.MethodIsHead(wire))
    && (Answers(r.resp) ==> ask.Some? && (r.resp.ReplyVectored? <==> ask.value.body))
    && (KeepsOpen(r.resp) <==>
          && ask.Some? && !ask.value.close && !env.drainingAfter
          && Told(full) && tok.persists(LastCall(full).value.view))
    && (r.calls != [] ==> Follows(ChoiceOf(env, |r.calls|), Told(full), r.resp))
    && (r.resp == Defer ==> r.calls != [])
    && (r.conn.phase.Parked? ==> r.resp == Defer)
  }

  lemma {:induction false} Negotiated(tok: Tokenizer, view: View, ask: Ask, draining: bool, abandons: bool)
    ensures var resp := Negotiate(tok, view, ask.close, ask.body, draining, abandons);
            && Answers(resp) && !IsFarewell(resp) && (resp.ReplyVectored? <==> ask.body)
            && (KeepsOpen(resp) <==> tok.persists(view) && !ask.close && !draining && !abandons)
  {
  }

  /** The last call of a delivery is the last of the log. */
  lemma {:induction false} LastOf(log: seq<Event>, d: Dispatch, e: Dispatch)
    ensures LastCall(log + Events([d])) == Some(d) && LastCall(log + Events([d, e])) == Some(e)
    ensures LastCall(log + Events([])) == LastCall(log)
  {
    LastOfEvents(log, [d]);
    LastOfEvents(log, [d, e]);
    Empties(log);
  }

  /** What one call makes of a choice. */
  lemma {:induction false} CallIs(tok: Tokenizer, conn: Conn, d: Dispatch, choice: Choice, draining: bool)
    requires HeadView(tok, conn.index, d.head) == Some(d.view)
    ensures var (disp, calls) := Call(tok, conn, d.head, d.body, d.trailers, d.stage, d.redriven, choice, draining);
            && calls == [d]
            && (choice.Respond? ==>
                  disp == Done(Negotiate(tok, d.view, choice.wantsClose, choice.hasBody, draining, Abandons(d.stage))))
            && (choice.Park? ==> disp.Parking?)
            && (choice.Continue? ==> disp == if d.stage == Whole || d.stage == End then Done(Close) else Accepted)
  {
    hide HeadView;
  }

  /** A call that completes the request. */
  lemma {:induction false} FinalReplied(tok: Tokenizer, conn: Conn, wire: bytes, log: seq<Event>, env: Env, d: Dispatch,
                                        resume: Option<StreamPark>)
    requires HeadView(tok, conn.index, d.head) == Some(d.view) && (d.stage == Whole || d.stage == End)
    requires conn.phase == AtHead
    ensures var (disp, calls) := Call(tok, conn, d.head, d.body, d.trailers, d.stage, d.redriven, env.first,
                                      env.drainingAfter);
            Replied(tok, wire, log, env, Settle(conn, disp, resume, calls))
  {
    hide HeadView, Call, Negotiate, LastCall, Events, F.MethodIsHead;
    CallIs(tok, conn, d, env.first, env.drainingAfter);
    LastOf(log, d, d);
    if env.first.Respond? {
      Negotiated(tok, d.view, Ask(env.first.wantsClose, env.first.hasBody), env.drainingAfter, false);
    }
  }

  /** The End called behind another call. */
  lemma {:induction false} EndReplied(tok: Tokenizer, conn: Conn, wire: bytes, log: seq<Event>, env: Env,
                                      before: Dispatch, d: Dispatch)
    requires HeadView(tok, conn.index, d.head) == Some(d.view) && d.stage == End && d.body == [] && !d.redriven
    requires conn.phase == AtHead
    ensures Replied(tok, wire, log, env,
                    After(EndCall(tok, conn, d.head, d.trailers, env.second, env.drainingAfter), [before]))
  {
    hide HeadView, Call, Negotiate, LastCall, Events, F.MethodIsHead;
    CallIs(tok, conn, d, env.second, env.drainingAfter);
    LastOf(log, before, d);
    assert [before] + [d] == [before, d];
    if env.second.Respond? {
      Negotiated(tok, d.view, Ask(env.second.wantsClose, env.second.hasBody), env.drainingAfter, false);
    }
  }

  /** A call inside a stream keeps nothing that is answered. */
  lemma {:induction false} StreamReplied(tok: Tokenizer, conn: Conn, wire: bytes, log: seq<Event>, env: Env,
                                         d: Dispatch, next: Phase, park: Phase, expects: bool)
    requires HeadView(tok, conn.index, d.head) == Some(d.view) && (d.stage == Open || d.stage == Window)
    requires conn.phase == AtHead && !next.Parked? && !park.Parked?
    ensures var (disp, calls) := Call(tok, conn, d.head, d.body, d.trailers, d.stage, d.redriven, env.first,
                                      env.drainingAfter);
            Replied(tok, wire, log, env, StreamSettle(conn, disp, calls, next, park, expects))
  {
    hide HeadView, Call, LastCall, Events, F.MethodIsHead;
    CallIs(tok, conn, d, env.first, env.drainingAfter);
    LastOf(log, d, d);
  }

  /** A delivery without a call, outside a park: the codec's own word. */
  lemma {:induction false} CodecReplied(tok: Tokenizer, wire: bytes, log: seq<Event>, env: Env, r: Result)
    requires r.calls == [] && !Told(log) && !Answers(r.resp) && r.resp != Defer && !r.conn.phase.Parked?
    requires IsFarewell(r.resp) ==> r.resp.what.headOnly == F.MethodIsHead(wire)
    ensures Replied(tok, wire, log, env, r)
  {
    hide LastCall, F.MethodIsHead;
    assert Events([]) == [];
    Empties(log);
  }

  // ----- one delivery

  /** The phase carries the head of the request at the front of the unanswered bytes. */
  ghost predicate Headed(tok: Tokenizer, lim: Limits, was: Conn, header: bytes, wire: bytes, f: Facts) {
    && HasHead(tok, lim, wire, f) && was.index == IndexOf(f)
    && wire[..f.len] ==
       match was.phase
       case AtHead => header
       case ExpectHead(head, _) => head
       case ExpectBody(head, _) => head
       case ScanBody(stash, _, _) => (match stash case Some(head) => head case None => header)
       case ScanDone(stash) => (match stash case Some(head) => head case None => header)
       case Fail(_, _) => wire[..f.len]
       case StreamOpen(head, _, _) => head
       case StreamKnown(head, _) => head
       case StreamBody(head, _, _, _) => head
       case StreamDone(head, _) => head
       case Parked(req, _) => req.head
  }

  /** What a park holds, as far as its answer goes. */
  ghost predicate Parks(log: seq<Event>, view: View, req: ParkedRequest, resume: Option<StreamPark>) {
    && LastCall(log).Some? && LastCall(log).value.view == view && LastCall(log).value.stage == req.stage
    && (resume.None? <==> req.stage == Whole || req.stage == End)
    && (resume.Some? ==> !resume.value.next.Parked?)
  }

  /** A park resumed inside a stream, or with nothing to resume. */
  lemma {:induction false} SilentReplied(tok: Tokenizer, wire: bytes, log: seq<Event>, env: Env, r: Result)
    requires r.calls == [] && Asked(env, 0).None? && !Answers(r.resp) && !IsFarewell(r.resp)
    requires r.resp != Defer && !r.conn.phase.Parked?
    ensures Replied(tok, wire, log, env, r)
  {
    hide LastCall, F.MethodIsHead, Events;
  }

  /** A park inside a stream whose handler, redriven, reads on. */
  lemma {:induction false} OnwardReplied(tok: Tokenizer, wire: bytes, log: seq<Event>, env: Env, r: Result, d: Dispatch)
    requires r.calls == [d] && (d.stage == Open || d.stage == Window) && env.first.Continue?
    requires (r.resp == Reply(Interim) || r.resp == Reply(Nothing)) && !r.conn.phase.Parked?
    ensures Replied(tok, wire, log, env, r)
  {
    hide LastCall, F.MethodIsHead, Events;
    LastOf(log, d, d);
  }

  /** A worker's answer. */
  lemma {:induction false} WorkerReplied(tok: Tokenizer, wire: bytes, log: seq<Event>, env: Env, conn: Conn, view: View,
                                         req: ParkedRequest, resume: Option<StreamPark>)
    requires HeadView(tok, conn.index, req.head) == Some(view) && Parks(log, view, req, resume) && env.outcome.Answered?
    requires conn.phase == AtHead
    ensures Replied(tok, wire, log, env, ParkedStep(tok, conn, req, resume, env))
  {
    hide HeadView, LastCall, Negotiate, F.MethodIsHead;
    Negotiated(tok, view, Ask(env.outcome.wantsClose, env.outcome.hasBody), env.drainingAfter, resume.Some?);
    assert Events([]) == [];
    Empties(log);
  }

  /** A park inside a stream, redriven: the handler answers, parks again, or reads on. */
  lemma {:induction false} RedriveReplied(tok: Tokenizer, wire: bytes, log: seq<Event>, env: Env, conn: Conn,
                                          view: View, req: ParkedRequest, resume: Option<StreamPark>)
    requires HeadView(tok, conn.index, req.head) == Some(view) && Parks(log, view, req, resume) && env.outcome.Redrive?
    requires conn.phase == AtHead
    ensures Replied(tok, wire, log, env, ParkedStep(tok, conn, req, resume, env))
  {
    hide HeadView, Call, LastCall, Events, F.MethodIsHead, Replied, EndCall;
    var d := Dispatch(req.stage, req.head, view, req.body, req.trailers, true);
    CallIs(tok, conn, d, env.first, env.drainingAfter);
    if resume.None? {
      FinalReplied(tok, conn, wire, log, env, d, resume);
    } else if env.first.Continue? {
      if resume.value.next.StreamDone? {
        EndReplied(tok, conn, wire, log, env, d, Dispatch(End, req.head, view, [], [], false));
      } else {
        OnwardReplied(tok, wire, log, env, ParkedStep(tok, conn, req, resume, env), d);
      }
    } else {
      SettledReplied(tok, conn, wire, log, env, d, resume);
    }
  }

  lemma {:induction false} SettledReplied(tok: Tokenizer, conn: Conn, wire: bytes, log: seq<Event>, env: Env,
                                          d: Dispatch, resume: Option<StreamPark>)
    requires HeadView(tok, conn.index, d.head) == Some(d.view) && (d.stage == Open || d.stage == Window)
    requires conn.phase == AtHead && !env.first.Continue?
    ensures var (disp, calls) := Call(tok, conn, d.head, d.body, d.trailers, d.stage, d.redriven, env.first,
                                      env.drainingAfter);
            Replied(tok, wire, log, env, Settle(conn, disp, resume, calls))
  {
    hide HeadView, Call, LastCall, Events, F.MethodIsHead, Negotiate;
    CallIs(tok, conn, d, env.first, env.drainingAfter);
    LastOf(log, d, d);
    if env.first.Respond? {
      Negotiated(tok, d.view, Ask(env.first.wantsClose, env.first.hasBody), env.drainingAfter, true);
    }
  }

  lemma {:induction false} ParkReplied(tok: Tokenizer, lim: Limits, was: Conn, env: Env, wire: bytes, f: Facts,
                                       log: seq<Event>)
    requires Sound(tok) && was.phase.Parked? && Headed(tok, lim, was, [], wire, f)
    requires Parks(log, TrueView(wire, f), was.phase.req, was.phase.resume)
    ensures Replied(tok, wire, log, env, Step(tok, was, [], [], env))
  {
    hide LastCall, HeadView, TrueView, Replied, Sound, Call;
    var conn, req, resume, view := was.(phase := AtHead), was.phase.req, was.phase.resume, TrueView(wire, f);
    ViewFound(tok, lim, conn, wire, f);
    match env.outcome
    case Answered(_, _) => WorkerReplied(tok, wire, log, env, conn, view, req, resume);
    case Redrive => RedriveReplied(tok, wire, log, env, conn, view, req, resume);
    case Resume =>
      if resume.Some? && resume.value.next.StreamDone? {
        FinalReplied(tok, conn, wire, log, env, Dispatch(End, req.head, view, [], [], false), None);
      } else {
        SilentReplied(tok, wire, log, env, Step(tok, was, [], [], env));
      }
  }

  lemma {:induction false} KnownReplied(tok: Tokenizer, conn: Conn, wire: bytes, log: seq<Event>, head: bytes,
                                        view: View, remaining: nat, body: bytes, env: Env)
    requires HeadView(tok, conn.index, head) == Some(view)
    requires conn.phase == AtHead
    ensures Replied(tok, wire, log, env, KnownWindowStep(tok, conn, head, remaining, body, env))
  {
    hide HeadView, Call, Replied, EndCall, StreamSettle;
    var d := Dispatch(Window, head, view, body, [], false);
    var left: nat := if remaining > |body| then remaining - |body| else 0;
    CallIs(tok, conn, d, env.first, env.drainingAfter);
    EndReplied(tok, conn, wire, log, env, d, Dispatch(End, head, view, [], [], false));
    var next := StreamKnown(head, left);
    StreamReplied(tok, conn, wire, log, env, d, next, if left == 0 then StreamDone(head, 0) else next, false);
  }

  lemma {:induction false} WholeReplied(tok: Tokenizer, conn: Conn, wire: bytes, log: seq<Event>, env: Env, d: Dispatch)
    requires HeadView(tok, conn.index, d.head) == Some(d.view) && (d.stage == Whole || d.stage == End) && !d.redriven
    requires conn.phase == AtHead
    ensures Replied(tok, wire, log, env,
                    CallWhole(tok, conn, d.head, d.body, d.trailers, d.stage, env.first, env.drainingAfter))
  {
    hide HeadView, Call, Replied, Settle;
    FinalReplied(tok, conn, wire, log, env, d, None);
  }

  /** Every delivery outside a park. */
  lemma {:induction false} StepReplied(tok: Tokenizer, lim: Limits, was: Conn, header: bytes, body: bytes, env: Env,
                                       wire: bytes, f: Facts, log: seq<Event>)
    requires Sound(tok) && WholeHeads(tok) && Headed(tok, lim, was, header, wire, f)
    requires !was.phase.Parked? && !was.phase.Fail? && !Told(log)
    ensures Replied(tok, wire, log, env, Step(tok, was, header, body, env))
  {
    hide LastCall, HeadView, TrueView, Replied, Sound, Call, Told, F.MethodIsHead, WholeHeads, KnownWindowStep,
         StreamSettle, CallWhole, R.Decode, BlockTrailers, W.NextChunk;
    var conn, head, view := was.(phase := AtHead), wire[..f.len], TrueView(wire, f);
    var r := Step(tok, was, header, body, env);
    ViewFound(tok, lim, conn, wire, f);
    HeadNamesMethod(tok, wire, f);
    match was.phase
    case ExpectHead(_, _) => CodecReplied(tok, wire, log, env, r);
    case ScanBody(_, _, _) => CodecReplied(tok, wire, log, env, r);
    case AtHead => WholeReplied(tok, conn, wire, log, env, Dispatch(Whole, head, view, body, [], false));
    case ExpectBody(_, _) => WholeReplied(tok, conn, wire, log, env, Dispatch(Whole, head, view, body, [], false));
    case ScanDone(_) =>
      if R.Decode(body).Some? {
        var d := R.Decode(body).value;
        WholeReplied(tok, conn, wire, log, env, Dispatch(Whole, head, view, d.entity, d.trailers, false));
      } else {
        CodecReplied(tok, wire, log, env, r);
      }
    case StreamDone(_, at) =>
      var trailers := BlockTrailers(header[Min(at, |header|)..]);
      WholeReplied(tok, conn, wire, log, env, Dispatch(End, head, view, [], trailers, false));
    case StreamKnown(_, remaining) => KnownReplied(tok, conn, wire, log, head, view, remaining, body, env);
    case StreamOpen(_, expects, kind) =>
      if env.draining {
        CodecReplied(tok, wire, log, env, r);
      } else {
        var next := match kind
          case ChunkFramed => StreamBody(head, 0, false, 0)
          case Sized(len) => StreamKnown(head, len);
        StreamReplied(tok, conn, wire, log, env, Dispatch(Open, head, view, [], [], false), next, next, expects);
      }
    case StreamBody(_, _, _, decoded) =>
      WindowReplied(tok, conn, was.phase, header, body, env, wire, log, view);
  }

  lemma {:induction false} WindowReplied(tok: Tokenizer, conn: Conn, was: Phase, header: bytes, body: bytes, env: Env,
                                         wire: bytes, log: seq<Event>, view: View)
    requires was.StreamBody? && HeadView(tok, conn.index, was.head) == Some(view)
    requires conn.phase == AtHead
    ensures Replied(tok, wire, log, env, BodyWindowStep(tok, conn, was, header, body, env))
  {
    hide HeadView, Call, Replied, StreamSettle, W.NextChunk;
    var owed :=
      if was.chunkLeft > 0 then was.chunkLeft
      else match W.NextChunk(header, was.afterPayload)
        case ChunkAt(_, payload) => payload
        case _ => |body|;
    var left := if owed > |body| then owed - |body| else 0;
    var next := StreamBody(was.head, left, left == 0, F.SatAdd(was.decoded, |body|));
    StreamReplied(tok, conn, wire, log, env, Dispatch(Window, was.head, view, body, [], false), next, next, false);
  }

  // ----- what is delivered

  /** What the framer hands over knows its head, or is a failure that knows whether it answers `HEAD`. */
  ghost predicate FramedOk(tok: Tokenizer, lim: Limits, framed: F.Framed, buf: bytes, wire: bytes) {
    framed.framing.Complete? && framed.framing.headerLen <= |buf| ==>
      if framed.conn.phase.Fail? then framed.conn.phase.headOnly == F.MethodIsHead(wire)
      else !framed.conn.phase.Parked? &&
           exists f :: Headed(tok, lim, framed.conn, buf[..framed.framing.headerLen], wire, f)
  }

  lemma {:induction false} ScanHeaded(tok: Tokenizer, lim: Limits, conn: Conn, buf: bytes, wire: bytes, f: Facts)
    requires WholeHeads(tok) && HasHead(tok, lim, wire, f) && conn.index == IndexOf(f) && conn.phase.ScanBody?
    requires match conn.phase.stash
             case Some(h) => h == wire[..f.len]
             case None => conn.phase.headLen == f.len && wire == buf
    ensures FramedOk(tok, lim, F.ScanStep(conn, buf, lim.cfg), buf, wire)
  {
    hide WholeHeads, F.MethodIsHead, F.Scan, F.OverCap;
    HeadNamesMethod(tok, wire, f);
    var framed := F.ScanStep(conn, buf, lim.cfg);
    if framed.framing.Complete? && !framed.conn.phase.Fail? && framed.framing.headerLen <= |buf| {
      assert Headed(tok, lim, framed.conn, buf[..framed.framing.headerLen], wire, f);
    }
  }

  lemma {:induction false} StreamHeaded(tok: Tokenizer, lim: Limits, conn: Conn, buf: bytes, wire: bytes, f: Facts)
    requires WholeHeads(tok) && HasHead(tok, lim, wire, f) && conn.index == IndexOf(f)
    requires conn.phase.StreamBody? && conn.phase.head == wire[..f.len]
    ensures FramedOk(tok, lim, F.StreamStep(conn, buf), buf, wire)
  {
    hide WholeHeads, F.MethodIsHead, W.NextChunk;
    HeadNamesMethod(tok, wire, f);
    var framed := F.StreamStep(conn, buf);
    if framed.framing.Complete? && !framed.conn.phase.Fail? && framed.framing.headerLen <= |buf| {
      assert Headed(tok, lim, framed.conn, buf[..framed.framing.headerLen], wire, f);
    }
  }

  lemma {:induction false} HeadHeaded(tok: Tokenizer, lim: Limits, conn: Conn, buf: bytes)
    requires Sound(tok) && WholeHeads(tok) && conn.phase == AtHead
    ensures FramedOk(tok, lim, F.HeadStep(tok, conn, buf, lim.cfg), buf, buf)
  {
    hide WholeHeads, F.MethodIsHead, F.ScanStep, FramedOk;
    assert ParseOk(tok, buf);
    var framed := F.HeadStep(tok, conn, buf, lim.cfg);
    if framed.conn.phase.Fail? || !framed.framing.Complete? {
      FailsKnowing(tok, lim, conn, buf);
    } else {
      var f := tok.parse(buf).facts;
      var indexed := conn.(index := IndexOf(f));
      BodyHeaded(tok, lim, indexed, buf, f);
    }
  }

  lemma {:induction false} FailsKnowing(tok: Tokenizer, lim: Limits, conn: Conn, buf: bytes)
    requires conn.phase == AtHead
    requires var framed := F.HeadStep(tok, conn, buf, lim.cfg); framed.conn.phase.Fail? || !framed.framing.Complete?
    ensures FramedOk(tok, lim, F.HeadStep(tok, conn, buf, lim.cfg), buf, buf)
  {
    hide F.MethodIsHead, F.Scan, F.OverCap;
  }

  lemma {:induction false} BodyHeaded(tok: Tokenizer, lim: Limits, conn: Conn, buf: bytes, f: Facts)
    requires WholeHeads(tok) && HasHead(tok, lim, buf, f) && conn.index == IndexOf(f) && conn.phase == AtHead
    ensures FramedOk(tok, lim, F.BodyStep(conn, buf, lim.cfg, f, f.body.kind), buf, buf)
  {
    hide WholeHeads, F.MethodIsHead, F.ScanStep;
    var kind := f.body.kind;
    var framed := F.BodyStep(conn, buf, lim.cfg, f, kind);
    if kind.ChunkFramed? && !F.Streams(conn.streamCap, kind) && !F.Dances(f, kind) {
      ScanHeaded(tok, lim, conn.(phase := ScanBody(None, f.len, SCAN_START)), buf, buf, f);
    } else if !framed.conn.phase.Fail? {
      assert Headed(tok, lim, framed.conn, buf[..f.len], buf, f);
    }
  }

  lemma {:induction false} FrameHeaded(tok: Tokenizer, lim: Limits, sys: Sys)
    requires Sound(tok) && WholeHeads(tok) && Inv(tok, lim, sys) && sys.open && !sys.conn.phase.Parked?
    ensures FramedOk(tok, lim, F.Frame(tok, sys.conn, sys.buf, lim.cfg), sys.buf, sys.eaten + sys.buf)
  {
    hide Legal, PastOk, Traced, Over, Sound, Interims, CallsRead, TrueView, Measured, F.HeadStep, F.ScanStep,
         F.StreamStep, FramedOk, KnownAt, ChunkedAt, ScannedTo, WholeHeads;
    var wire, conn, phase := sys.eaten + sys.buf, sys.conn, sys.conn.phase;
    if phase.AtHead? {
      Empties(sys.buf);
      HeadHeaded(tok, lim, conn, sys.buf);
    } else {
      var f :| Mid(tok, lim, conn, wire, sys.log, f) && PhaseOk(tok, lim, phase, sys.eaten, wire, sys.log, f);
      match phase
      case ExpectBody(head, kind) =>
        if kind.ChunkFramed? {
          ScanHeaded(tok, lim, conn.(phase := ScanBody(Some(head), 0, SCAN_START)), sys.buf, wire, f);
        } else {
          PlainHeaded(tok, lim, F.Frame(tok, conn, sys.buf, lim.cfg), sys.buf, wire, f);
        }
      case ScanBody(_, _, _) =>
        Empties(sys.buf);
        ScanHeaded(tok, lim, conn, sys.buf, wire, f);
      case StreamKnown(_, _) => PlainHeaded(tok, lim, F.Frame(tok, conn, sys.buf, lim.cfg), sys.buf, wire, f);
      case StreamBody(_, _, _, _) => StreamHeaded(tok, lim, conn, sys.buf, wire, f);
    }
  }

  lemma {:induction false} PlainHeaded(tok: Tokenizer, lim: Limits, framed: F.Framed, buf: bytes, wire: bytes, f: Facts)
    requires HasHead(tok, lim, wire, f) && framed.conn.index == IndexOf(f)
    requires || (framed.conn.phase.ExpectBody? && framed.conn.phase.head == wire[..f.len])
             || (framed.conn.phase.StreamKnown? && framed.conn.phase.head == wire[..f.len])
    ensures FramedOk(tok, lim, framed, buf, wire)
  {
    hide HasHead;
    if framed.framing.Complete? && framed.framing.headerLen <= |buf| {
      assert Headed(tok, lim, framed.conn, buf[..framed.framing.headerLen], wire, f);
    }
  }

  /** Outside a park the request is not yet complete. */
  lemma {:induction false} NotTold(tok: Tokenizer, lim: Limits, sys: Sys)
    requires Inv(tok, lim, sys) && sys.open && !sys.conn.phase.Parked?
    ensures !Told(sys.log)
  {
    hide Legal, PastOk, Traced, Over, CallsRead, TrueView, Measured, KnownAt, ChunkedAt, ScannedTo, HasHead, Windows;
    assert LastCall([]).None?;
    if sys.log == [Sent(Reply(Interim))] {
      InterimLog(sys.log);
    }
  }

  // ----- every run

  /** What an action delivers, if it delivers. */
  function Delivery(tok: Tokenizer, lim: Limits, sys: Sys, a: Action): Option<Result> {
    match a
    case Arrive(_) => None
    case Abandon => None
    case Complete(env) =>
      if !sys.conn.phase.Parked? || (env.outcome.Redrive? && sys.conn.phase.req.kind == Streaming)
         || (env.outcome.Resume? && sys.conn.phase.req.kind == Retained)
      then None
      else Some(Step(tok, sys.conn, [], [], env))
    case Pump(env) =>
      var framed := F.Frame(tok, sys.conn, sys.buf, lim.cfg);
      if sys.conn.phase.Parked? || !framed.framing.Complete? then None
      else
        var h, b := framed.framing.headerLen, framed.framing.bodyLen;
        if 0 < h + b <= lim.reactorCap && h + b <= |sys.buf|
        then Some(Step(tok, framed.conn, sys.buf[..h], sys.buf[h..h + b], env))
        else None
  }

  /** An action records what it delivered, and answers nothing when it delivers nothing. */
  lemma {:induction false} DeliveryIs(tok: Tokenizer, lim: Limits, sys: Sys, a: Action)
    requires sys.open
    ensures match Delivery(tok, lim, sys, a)
            case None => var next := Act(tok, lim, sys, a); next.past == sys.past && next.log == sys.log
            case Some(r) => exists n :: 0 <= n <= |sys.buf| && Act(tok, lim, sys, a) == Record(sys, n, r)
  {
    hide Step, F.Frame, Record;
    match Delivery(tok, lim, sys, a)
    case None =>
    case Some(r) =>
      var n: nat := if a.Pump? then
          var framed := F.Frame(tok, sys.conn, sys.buf, lim.cfg); framed.framing.headerLen + framed.framing.bodyLen
        else 0;
      assert Act(tok, lim, sys, a) == Record(sys, n, r);
  }

  lemma {:induction false} PumpReplied(tok: Tokenizer, lim: Limits, sys: Sys, env: Env)
    requires Sound(tok) && WholeHeads(tok) && Inv(tok, lim, sys) && sys.open
    requires Delivery(tok, lim, sys, Pump(env)).Some?
    ensures Replied(tok, sys.eaten + sys.buf, sys.log, env, Delivery(tok, lim, sys, Pump(env)).value)
  {
    hide Sound, WholeHeads, Inv, F.Frame, Step, Headed, Told, Replied, F.MethodIsHead;
    var framed, wire := F.Frame(tok, sys.conn, sys.buf, lim.cfg), sys.eaten + sys.buf;
    var h, b := framed.framing.headerLen, framed.framing.bodyLen;
    var header, body := sys.buf[..h], sys.buf[h..h + b];
    FrameHeaded(tok, lim, sys);
    NotTold(tok, lim, sys);
    if framed.conn.phase.Fail? {
      var p := framed.conn.phase;
      FailStep(tok, framed.conn, header, body, env);
      CodecReplied(tok, wire, sys.log, env, Step(tok, framed.conn, header, body, env));
    } else {
      var f :| Headed(tok, lim, framed.conn, header, wire, f);
      StepReplied(tok, lim, framed.conn, header, body, env, wire, f, sys.log);
    }
  }

  lemma {:induction false} FailStep(tok: Tokenizer, conn: Conn, header: bytes, body: bytes, env: Env)
    requires conn.phase.Fail?
    ensures var r := Step(tok, conn, header, body, env);
            r.calls == [] && r.resp == SayFarewell(conn.phase.status, conn.phase.headOnly) && r.conn.phase == AtHead
  {
  }

  lemma {:induction false} ResolveReplied(tok: Tokenizer, lim: Limits, sys: Sys, env: Env)
    requires Sound(tok) && Inv(tok, lim, sys) && sys.open && sys.conn.phase.Parked?
    ensures Replied(tok, sys.eaten + sys.buf, sys.log, env, Step(tok, sys.conn, [], [], env))
  {
    hide Legal, PastOk, Traced, Over, Sound, Measured, TrueView, Replied, Step, KnownAt, ChunkedAt, Served, LastCall,
         Interims, Windows;
    var wire := sys.eaten + sys.buf;
    var f :| Mid(tok, lim, sys.conn, wire, sys.log, f)
             && PhaseOk(tok, lim, sys.conn.phase, sys.eaten, wire, sys.log, f);
    ParkReplied(tok, lim, sys.conn, env, wire, f, sys.log);
  }

  /**
    Over every run, for every delivery: the answer is the handler's or the worker's own, the connection is kept
    exactly when the request is complete, its head lets the connection persist, the answer does not ask to
    close and the server is not draining; and a farewell says `HEAD` exactly when the bytes it answers do.
  */
  lemma {:induction false} EveryReply(tok: Tokenizer, lim: Limits, actions: seq<Action>, a: Action)
    requires Sound(tok) && WholeHeads(tok)
    ensures var sys := Exec(tok, lim, Start(lim), actions);
            sys.open && Delivery(tok, lim, sys, a).Some? ==>
              && (a.Pump? || a.Complete?)
              && Replied(tok, sys.eaten + sys.buf, sys.log, a.env, Delivery(tok, lim, sys, a).value)
  {
    hide Exec, Inv, Sound, WholeHeads, Replied, Step, F.Frame;
    EveryRun(tok, lim, actions);
    var sys := Exec(tok, lim, Start(lim), actions);
    if sys.open && Delivery(tok, lim, sys, a).Some? {
      match a
      case Pump(env) => PumpReplied(tok, lim, sys, env);
      case Complete(env) => ResolveReplied(tok, lim, sys, env);
    }
  }

  /**
    Over every run, a farewell sent once the head of the request is known, though its bytes may be long gone, is
    without a body exactly when that head's method is `HEAD`.
  */
  lemma {:induction false} FarewellsNameTheMethod(tok: Tokenizer, lim: Limits, actions: seq<Action>, a: Action,
                                                  f: Facts)
    requires Sound(tok) && WholeHeads(tok)
    ensures var sys := Exec(tok, lim, Start(lim), actions);
            var wire, r := sys.eaten + sys.buf, Delivery(tok, lim, sys, a);
            sys.open && r.Some? && IsFarewell(r.value.resp) && tok.parse(wire) == Parsed(f) ==>
              && f.len <= |wire|
              && (r.value.resp.what.headOnly <==>
                    exists n :: 0 <= n <= f.len && Breaks(wire[..f.len][..n]) && HEAD_SP <= wire[..f.len][n..])
  {
    hide Exec, Inv, Sound, WholeHeads, Delivery, F.MethodIsHead, Breaks, LastCall, Events, Told;
    var sys := Exec(tok, lim, Start(lim), actions);
    var wire := sys.eaten + sys.buf;
    EveryReply(tok, lim, actions, a);
    if tok.parse(wire) == Parsed(f) {
      HeadNamesMethod(tok, wire, f);
      MethodIsHeadIff(wire[..f.len]);
    }
  }

  /** A request that was complete, with a head that lets the connection persist. */
  predicate Persists(tok: Tokenizer, e: Exchange) {
    Told(e.log) && tok.persists(LastCall(e.log).value.view)
  }

  predicate AllPersist(tok: Tokenizer, past: seq<Exchange>) {
    forall i :: 0 <= i < |past| ==> Persists(tok, past[i])
  }

  lemma {:induction false} RecordPersists(tok: Tokenizer, sys: Sys, wire: bytes, env: Env, n: nat, r: Result)
    requires AllPersist(tok, sys.past) && Replied(tok, wire, sys.log, env, r) && n <= |sys.buf|
    ensures AllPersist(tok, Record(sys, n, r).past)
  {
    hide LastCall, Events, F.MethodIsHead, Asked;
    LastStays(sys.log + Events(r.calls), r.resp);
  }

  lemma {:induction false} ActPersists(tok: Tokenizer, lim: Limits, sys: Sys, a: Action)
    requires Sound(tok) && WholeHeads(tok) && Inv(tok, lim, sys) && AllPersist(tok, sys.past)
    ensures AllPersist(tok, Act(tok, lim, sys, a).past)
  {
    hide Sound, WholeHeads, Inv, AllPersist, Replied, Step, F.Frame, Record;
    if sys.open {
      DeliveryIs(tok, lim, sys, a);
      if Delivery(tok, lim, sys, a).Some? {
        var r := Delivery(tok, lim, sys, a).value;
        if a.Pump? {
          PumpReplied(tok, lim, sys, a.env);
        } else {
          ResolveReplied(tok, lim, sys, a.env);
        }
        var n :| 0 <= n <= |sys.buf| && Act(tok, lim, sys, a) == Record(sys, n, r);
        RecordPersists(tok, sys, sys.eaten + sys.buf, a.env, n, r);
      }
    }
  }

  lemma {:induction false} RunPersists(tok: Tokenizer, lim: Limits, sys: Sys, actions: seq<Action>)
    requires Sound(tok) && WholeHeads(tok) && Inv(tok, lim, sys) && AllPersist(tok, sys.past)
    ensures AllPersist(tok, Exec(tok, lim, sys, actions).past)
    decreases |actions|
  {
    hide Sound, WholeHeads, Inv, AllPersist, Act;
    if actions != [] {
      ActKeeps(tok, lim, sys, actions[0]);
      ActPersists(tok, lim, sys, actions[0]);
      RunPersists(tok, lim, Act(tok, lim, sys, actions[0]), actions[1..]);
    }
  }

  /** The header lines and the version of a head as the handler sees it. */
  type Reading = View -> (seq<H.Header>, H.Version)

  /** The codec's rule for persisting, over a head's lines. */
  ghost predicate PersistsBy(tok: Tokenizer, read: Reading) {
    forall view :: tok.persists(view) ==
                   (H.KeepAlive(read(view).0, read(view).1) && !H.LengthAndCoding(read(view).0))
  }

  /**
    Over every run, a connection was kept only behind complete requests whose head does not say `close`, is of
    version 1.1 or asks for it, and does not have both a length and a transfer coding.
  */
  lemma {:induction false} KeptHeads(tok: Tokenizer, lim: Limits, actions: seq<Action>, read: Reading, i: nat)
    requires Sound(tok) && WholeHeads(tok) && PersistsBy(tok, read)
    requires i < |Exec(tok, lim, Start(lim), actions).past|
    ensures var log := Exec(tok, lim, Start(lim), actions).past[i].log;
            && Told(log)
            && var (lines, version) := read(LastCall(log).value.view);
               var tokens := H.ListOf(lines, "connection");
               && !H.HasToken(tokens, "close")
               && (version == H.Http11 || H.HasToken(tokens, "keep-alive"))
               && (H.Absent(lines, "content-length") || H.Absent(lines, "transfer-encoding"))
  {
    hide Exec, Inv, Sound, WholeHeads, H.HasToken, H.ListOf, H.Absent, H.ValuesOf, LastCall;
    StartHolds(tok, lim);
    RunPersists(tok, lim, Start(lim), actions);
    var e := Exec(tok, lim, Start(lim), actions).past[i];
    assert Persists(tok, e);
    var view := LastCall(e.log).value.view;
    assert tok.persists(view);
    var lines := read(view).0;
    H.LinesWith(lines, "content-length");
    H.LinesWith(lines, "transfer-encoding");
  }
}
