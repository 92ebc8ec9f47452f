/** What a connection says of its own accord: the refusals, with their statuses, and the interim response. */
module ConnectionRefusals {
  import opened Bytes
  import opened HttpTypes
  import opened Glue
  import opened Connection
  import opened ConnectionInvariant
  import opened ConnectionSteps
  import opened ConnectionSafety
  import opened ConnectionProgress
  import opened ConnectionAnswers
  import F = Framer
  import W = ChunkWalk
  import S = ScanSegmentation

  // ----- what is refused at the head

  /** A declared length that the stream cap, or else the cap on buffered bodies, does not allow. */
  predicate TooLarge(lim: Limits, n: nat) {
    || (lim.streamCap.Some? && n > lim.streamCap.value)
    || (!Windowed(lim, Sized(n)) && n > lim.cfg.maxBody)
  }

  predicate RefusedWith(framed: F.Framed, status: nat) {
    framed.conn.phase.Fail? && framed.conn.phase.status == status
  }

  /**
    When a head is refused, and with which status: 431 for one that is too long, complete or not; the tokenizer's
    own status for what is no head, unless it was too long before that showed; the declared status of a bad
    body; 413 for a length beyond the caps; and a body scanned at once as a scan of it is judged.
  */
  lemma {:induction false} HeadRefusals(tok: Tokenizer, lim: Limits, conn: Conn, buf: bytes)
    requires Sound(tok) && conn.phase == AtHead && conn.streamCap == lim.streamCap
    ensures var framed := F.Frame(tok, conn, buf, lim.cfg);
            match tok.parse(buf)
            case Partial => if |buf| > lim.cfg.maxHead then RefusedWith(framed, 431) else !framed.conn.phase.Fail?
            case Rejected(s) =>
              var cut := |buf| > lim.cfg.maxHead && tok.parse(buf[..lim.cfg.maxHead]).Partial?;
              RefusedWith(framed, if cut then 431 else s)
            case Parsed(f) =>
              if f.len > lim.cfg.maxHead then RefusedWith(framed, 431)
              else match f.body
                case BodyBad(s) => RefusedWith(framed, s)
                case BodyOk(Sized(n)) => if TooLarge(lim, n) then RefusedWith(framed, 413) else !framed.conn.phase.Fail?
                case BodyOk(ChunkFramed) =>
                  f.len <= |buf| &&
                  var j := S.Judge(lim.cfg, buf[f.len..]);
                  if !Windowed(lim, ChunkFramed) && !f.expects && j.Refuses? then RefusedWith(framed, j.status)
                  else !framed.conn.phase.Fail?
  {
    hide F.MethodIsHead, F.ScanStep, S.Judge;
    assert ParseOk(tok, buf);
    if tok.parse(buf).Parsed? {
      var f := tok.parse(buf).facts;
      if f.len <= lim.cfg.maxHead && f.body == BodyOk(ChunkFramed) && lim.streamCap.None? && !f.expects {
        ScanFromStart(buf[f.len..]);
        S.StepJudges(conn.(index := IndexOf(f), phase := ScanBody(None, f.len, SCAN_START)), buf, lim.cfg, 0);
      }
    }
  }

  /** A stream is refused with 413 when its next chunk would pass the cap, and otherwise as the coding is. */
  lemma {:induction false} StreamRefusals(tok: Tokenizer, lim: Limits, conn: Conn, buf: bytes)
    requires conn.phase.StreamBody? && conn.streamCap == lim.streamCap
    ensures var framed, p := F.Frame(tok, conn, buf, lim.cfg), conn.phase;
            if p.chunkLeft > 0 then !framed.conn.phase.Fail?
            else match W.NextChunk(buf, p.afterPayload)
              case Malformed(s) => RefusedWith(framed, s)
              case ChunkAt(_, n) =>
                if lim.streamCap.Some? && Min(p.decoded + n, USIZE_MAX) > lim.streamCap.value
                then RefusedWith(framed, 413)
                else !framed.conn.phase.Fail?
              case _ => !framed.conn.phase.Fail?
  {
    hide F.MethodIsHead, W.NextChunk;
  }

  // ----- how it is said

  /** A refusal is one farewell with its status, and the connection closes. */
  lemma {:induction false} RefusalIsSaid(tok: Tokenizer, lim: Limits, sys: Sys, env: Env, status: nat)
    requires sys.open && !sys.conn.phase.Parked? && 0 < |sys.buf| <= lim.reactorCap
    requires var framed := F.Frame(tok, sys.conn, sys.buf, lim.cfg);
             RefusedWith(framed, status) && framed.framing == Framing.Complete(|sys.buf|, 0)
    ensures var next, headOnly := PumpOnce(tok, lim, sys, env),
                                  F.Frame(tok, sys.conn, sys.buf, lim.cfg).conn.phase.headOnly;
            !next.open && next.log == sys.log + [Sent(ReplyClose(Farewell(status, headOnly)))]
  {
    hide F.Frame;
    var framed := F.Frame(tok, sys.conn, sys.buf, lim.cfg);
    FailStep(tok, framed.conn, sys.buf[..|sys.buf|], sys.buf[|sys.buf|..|sys.buf|], env);
    hide Step;
    assert Events([]) == [];
    Empties(sys.log);
  }

  /** A head that goes out alone: it streams, or its client waits to be told to go on. */
  ghost predicate GoesAlone(tok: Tokenizer, lim: Limits, sys: Sys, f: Facts) {
    && Sound(tok) && Inv(tok, lim, sys) && sys.open && sys.conn.phase.AtHead?
    && HasHead(tok, lim, sys.buf, f) && f.len <= lim.reactorCap
    && (f.body.kind.Sized? ==> !TooLarge(lim, f.body.kind.len))
    && (Windowed(lim, f.body.kind) || Awaits(f, f.body.kind))
  }

  lemma {:induction false} AloneFrames(tok: Tokenizer, lim: Limits, sys: Sys, f: Facts)
    requires GoesAlone(tok, lim, sys, f)
    ensures sys.eaten == [] && sys.log == [] && 0 < f.len <= |sys.buf|
    ensures var head, conn := sys.buf[..f.len], sys.conn.(index := IndexOf(f));
            F.Frame(tok, sys.conn, sys.buf, lim.cfg) ==
            F.Framed(conn.(phase := if Windowed(lim, f.body.kind) then StreamOpen(head, f.expects, f.body.kind)
                                    else ExpectHead(head, f.body.kind)),
                     Framing.Complete(f.len, 0))
  {
    hide Legal, PastOk, Traced, Over, F.MethodIsHead, F.ScanStep;
    assert ParseOk(tok, sys.buf);
  }

  /**
    Whatever bytes are there behind it, a head whose client waits is answered `100 Continue` by the next pump and by
    nothing else, unless its body streams; only the head is taken, and the body is then read.
  */
  lemma {:induction false} InterimAtOnce(tok: Tokenizer, lim: Limits, sys: Sys, f: Facts, env: Env)
    requires GoesAlone(tok, lim, sys, f) && !Windowed(lim, f.body.kind) && !env.draining
    ensures var next := PumpOnce(tok, lim, sys, env);
            && next.open && next.log == [Sent(Reply(Interim))] && next.past == sys.past
            && next.eaten == sys.buf[..f.len] && next.buf == sys.buf[f.len..]
            && next.conn.phase == ExpectBody(sys.buf[..f.len], f.body.kind)
  {
    AloneFrames(tok, lim, sys, f);
    hide F.Frame, Inv, Sound, HasHead, Legal;
    var framed := F.Frame(tok, sys.conn, sys.buf, lim.cfg);
    Empties(sys.buf[..f.len]);
    assert Events([]) == [] && [] + [Sent(Reply(Interim))] == [Sent(Reply(Interim))];
  }

  /** On a stream the interim goes out when the handler accepts the head, and not before. */
  lemma {:induction false} InterimOnAcceptance(tok: Tokenizer, lim: Limits, sys: Sys, f: Facts, env: Env)
    requires GoesAlone(tok, lim, sys, f) && Windowed(lim, f.body.kind) && !env.draining
    ensures var next, call := PumpOnce(tok, lim, sys, env),
                              Called(Dispatch(Open, sys.buf[..f.len], TrueView(sys.buf, f), [], [], false));
            && (env.first.Continue? ==>
                  next.open && next.log == [call, Sent(Reply(if f.expects then Interim else Nothing))])
            && (env.first.Park? ==> next.open && next.log == [call, Sent(Defer)])
            && (env.first.Respond? ==> !next.open && |next.log| == 2 && next.log[0] == call)
  {
    AloneFrames(tok, lim, sys, f);
    OpenSays(tok, lim, sys, f, env);
  }

  lemma {:induction false} OpenSays(tok: Tokenizer, lim: Limits, sys: Sys, f: Facts, env: Env)
    requires Sound(tok) && HasHead(tok, lim, sys.buf, f) && 0 < f.len <= lim.reactorCap
    requires sys.log == [] && !env.draining
    requires !sys.conn.phase.Parked?
    requires var conn := sys.conn.(index := IndexOf(f), phase := StreamOpen(sys.buf[..f.len], f.expects, f.body.kind));
             F.Frame(tok, sys.conn, sys.buf, lim.cfg) == F.Framed(conn, Framing.Complete(f.len, 0))
    ensures var next, call := PumpOnce(tok, lim, sys, env),
                              Called(Dispatch(Open, sys.buf[..f.len], TrueView(sys.buf, f), [], [], false));
            && (env.first.Continue? ==>
                  next.open && next.log == [call, Sent(Reply(if f.expects then Interim else Nothing))])
            && (env.first.Park? ==> next.open && next.log == [call, Sent(Defer)])
            && (env.first.Respond? ==> !next.open && |next.log| == 2 && next.log[0] == call)
  {
    hide Step, TrueView, Record;
    var stream := sys.conn.(index := IndexOf(f), phase := StreamOpen(sys.buf[..f.len], f.expects, f.body.kind));
    OpenResult(tok, lim, stream, sys.buf, f, env);
    hide F.Frame, Sound, HasHead, Deliver;
    assert sys.buf[f.len..f.len + 0] == [];
    DeliverWhole(tok, lim, sys, stream, f.len, 0, env);
    RecordSays(sys, f.len, Step(tok, stream, sys.buf[..f.len], [], env));
  }

  lemma {:induction false} OpenResult(tok: Tokenizer, lim: Limits, stream: Conn, buf: bytes, f: Facts, env: Env)
    requires Sound(tok) && HasHead(tok, lim, buf, f) && stream.index == IndexOf(f) && !env.draining
    requires stream.phase == StreamOpen(buf[..f.len], f.expects, f.body.kind)
    ensures var r := Step(tok, stream, buf[..f.len], [], env);
            && r.calls == [Dispatch(Open, buf[..f.len], TrueView(buf, f), [], [], false)]
            && (env.first.Continue? ==> r.resp == Reply(if f.expects then Interim else Nothing))
            && (env.first.Park? ==> r.resp == Defer)
            && (env.first.Respond? ==> Closes(r.resp))
  {
    var head := buf[..f.len];
    var d := Dispatch(Open, head, TrueView(buf, f), [], [], false);
    ViewFound(tok, lim, stream, buf, f);
    hide TrueView, HeadView;
    CallIs(tok, stream.(phase := AtHead), d, env.first, env.drainingAfter);
    StepOpen(tok, stream, head, [], env);
    hide Sound, HasHead, Call, Step;
  }

  lemma {:induction false} RecordSays(sys: Sys, n: nat, r: Result)
    requires sys.log == [] && |r.calls| == 1 && n <= |sys.buf| && !KeepsOpen(r.resp)
    ensures var next := Record(sys, n, r);
            next.log == [Called(r.calls[0]), Sent(r.resp)] && next.open == !Closes(r.resp) && next.past == sys.past
  {
    EventsOfOne(r.calls[0]);
    assert r.calls == [r.calls[0]];
    Empties([Called(r.calls[0])]);
  }

  /** A server that is shutting down takes on neither: the client is told 503. */
  lemma {:induction false} DrainingRefuses(tok: Tokenizer, lim: Limits, sys: Sys, f: Facts, env: Env)
    requires GoesAlone(tok, lim, sys, f) && env.draining
    ensures var next := PumpOnce(tok, lim, sys, env);
            && !next.open && next.past == sys.past
            && next.log == [Sent(ReplyClose(Farewell(503, F.MethodIsHead(sys.buf[..f.len]))))]
  {
    AloneFrames(tok, lim, sys, f);
    hide F.Frame, Inv, Sound, HasHead, Legal, F.MethodIsHead;
    assert Events([]) == [];
  }

  // ----- over every run

  /** An interim in the log means that the client of this request waits for one. */
  ghost predicate OwedInterim(tok: Tokenizer, lim: Limits, wire: bytes, log: seq<Event>) {
    Interims(log) > 0 ==> Interims(log) == 1 && exists f :: HasHead(tok, lim, wire, f) && Awaits(f, f.body.kind)
  }

  lemma {:induction false} OpenOwes(tok: Tokenizer, lim: Limits, sys: Sys)
    requires Inv(tok, lim, sys) && sys.open
    ensures OwedInterim(tok, lim, sys.eaten + sys.buf, sys.log)
  {
    hide Legal, PastOk, Traced, Over, CallsRead, TrueView, Measured, KnownAt, ChunkedAt, ScannedTo, LastCall, Windows,
         Content, IsRequest;
    var wire := sys.eaten + sys.buf;
    assert Interims([]) == 0;
    if sys.log == [Sent(Reply(Interim))] {
      InterimLog(sys.log);
    }
    if !sys.conn.phase.AtHead? {
      var f :| Mid(tok, lim, sys.conn, wire, sys.log, f)
               && PhaseOk(tok, lim, sys.conn.phase, sys.eaten, wire, sys.log, f);
      hide Interims;
      assert HasHead(tok, lim, wire, f);
    }
  }

  lemma {:induction false} CallsOweNothing(log: seq<Event>, calls: seq<Dispatch>)
    ensures Interims(log + Events(calls)) == Interims(log)
    decreases |calls|
  {
    if calls == [] {
      Empties(log);
    } else {
      var e := Called(calls[0]);
      AppendAppend(log, [e], Events(calls[1..]));
      CallsOweNothing(log + [e], calls[1..]);
      assert (log + [e])[..|log|] == log;
    }
  }

  lemma {:induction false} ClosingOwesNothing(sys: Sys, n: nat, r: Result)
    requires n <= |sys.buf| && Closes(r.resp)
    ensures var next := Record(sys, n, r);
            next.eaten + next.buf == sys.eaten + sys.buf && Interims(next.log) == Interims(sys.log)
  {
    hide Events;
    Cut(sys.eaten, sys.buf, n);
    CallsOweNothing(sys.log, r.calls);
    var log := sys.log + Events(r.calls);
    assert (log + [Sent(r.resp)])[..|log|] == log;
  }

  lemma {:induction false} ActOwes(tok: Tokenizer, lim: Limits, sys: Sys, a: Action)
    requires Sound(tok) && Inv(tok, lim, sys) && OwedInterim(tok, lim, sys.eaten + sys.buf, sys.log)
    ensures var next := Act(tok, lim, sys, a); OwedInterim(tok, lim, next.eaten + next.buf, next.log)
  {
    hide Sound, Inv, Step, F.Frame, Record, OwedInterim;
    var next := Act(tok, lim, sys, a);
    ActKeeps(tok, lim, sys, a);
    if next.open {
      OpenOwes(tok, lim, next);
    } else if sys.open {
      match Delivery(tok, lim, sys, a)
      case None => assert next.eaten == sys.eaten && next.buf == sys.buf && next.log == sys.log;
      case Some(r) =>
        DeliveryIs(tok, lim, sys, a);
        var n :| 0 <= n <= |sys.buf| && next == Record(sys, n, r);
        RecordCloses(sys, n, r);
        ClosingOwesNothing(sys, n, r);
        OwesTheSame(tok, lim, sys.eaten + sys.buf, sys.log, next.log);
    }
  }

  lemma {:induction false} OwesTheSame(tok: Tokenizer, lim: Limits, wire: bytes, a: seq<Event>, b: seq<Event>)
    requires OwedInterim(tok, lim, wire, a) && Interims(a) == Interims(b)
    ensures OwedInterim(tok, lim, wire, b)
  {
    hide Interims, HasHead;
  }

  lemma {:induction false} RecordCloses(sys: Sys, n: nat, r: Result)
    requires n <= |sys.buf|
    ensures Record(sys, n, r).open <==> !Closes(r.resp)
  {
    hide Events;
  }

  lemma {:induction false} RunOwes(tok: Tokenizer, lim: Limits, sys: Sys, actions: seq<Action>)
    requires Sound(tok) && Inv(tok, lim, sys) && OwedInterim(tok, lim, sys.eaten + sys.buf, sys.log)
    ensures var end := Exec(tok, lim, sys, actions); OwedInterim(tok, lim, end.eaten + end.buf, end.log)
    decreases |actions|
  {
    hide Sound, Inv, Act, OwedInterim;
    if actions != [] {
      ActKeeps(tok, lim, sys, actions[0]);
      ActOwes(tok, lim, sys, actions[0]);
      RunOwes(tok, lim, Act(tok, lim, sys, actions[0]), actions[1..]);
    }
  }

  /** Over every run, closed or not: no interim is sent but to a client that waits, and then one. */
  lemma {:induction false} InterimOnlyWhenOwed(tok: Tokenizer, lim: Limits, actions: seq<Action>, f: Facts)
    requires Sound(tok)
    ensures var sys := Exec(tok, lim, Start(lim), actions);
            tok.parse(sys.eaten + sys.buf) == Parsed(f) && !(f.body.BodyOk? && f.expects && f.body.kind != Sized(0)) ==>
              Interims(sys.log) == 0
  {
    hide Exec, Sound, Inv;
    StartHolds(tok, lim);
    assert Interims(Start(lim).log) == 0;
    RunOwes(tok, lim, Start(lim), actions);
  }

  /** The first request of a connection whose client waits: its head is answered with the interim, at once. */
  lemma {:induction false} FirstInterim(tok: Tokenizer, lim: Limits, head: bytes, more: bytes, f: Facts, env: Env)
    requires Sound(tok) && HasHead(tok, lim, head, f) && f.len == |head| <= lim.reactorCap && !env.draining
    requires f.expects && f.body.kind != Sized(0) && !Windowed(lim, f.body.kind)
    requires f.body.kind.Sized? ==> !TooLarge(lim, f.body.kind.len)
    ensures var sys := Exec(tok, lim, Start(lim), [Arrive(head + more), Pump(env)]);
            sys.open && sys.log == [Sent(Reply(Interim))] && sys.eaten == head && sys.buf == more && sys.past == []
  {
    var start, buf := Start(lim), head + more;
    var sys := start.(buf := buf);
    assert [] + buf == buf;
    ExecTwo(tok, lim, start, Arrive(buf), Pump(env));
    assert Act(tok, lim, start, Arrive(buf)) == sys && Act(tok, lim, sys, Pump(env)) == PumpOnce(tok, lim, sys, env);
    hide PumpOnce, Act, Exec;
    StartHolds(tok, lim);
    ArriveKeeps(tok, lim, start, buf);
    hide Inv;
    HeadKeptBehind(tok, lim, head, more, f);
    InterimAtOnce(tok, lim, sys, f, env);
    Halves(head, more);
  }

  lemma {:induction false} HeadKeptBehind(tok: Tokenizer, lim: Limits, head: bytes, more: bytes, f: Facts)
    requires Sound(tok) && HasHead(tok, lim, head, f) && f.len == |head|
    ensures HasHead(tok, lim, head + more, f)
  {
    assert tok.parse(head + more) == tok.parse(head);
  }
}
