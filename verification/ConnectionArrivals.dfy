/**
  A request that arrives in pieces: whatever the cuts, it is never refused, and a handler that
  reads on is told of all of it.
*/
module ConnectionArrivals {
  import opened Bytes
  import opened HttpTypes
  import opened Glue
  import opened Connection
  import opened ConnectionInvariant
  import opened ConnectionSteps
  import opened ConnectionSafety
  import opened ConnectionProgress
  import opened ConnectionTheorems
  import F = Framer
  import S = ScanSegmentation
  import W = ChunkWalk

  // ----- more bytes undo no framing verdict

  /** Waiting for more bytes. */
  predicate Holding(framed: F.Framed) {
    !framed.framing.Complete? && !framed.conn.phase.Parked?
  }

  lemma {:induction false} ScanExtends(conn: Conn, buf: bytes, more: bytes, cfg: Config, k: nat)
    requires conn.phase.ScanBody? && conn.phase.headLen <= |buf|
    requires ScannedTo(buf[conn.phase.headLen..], k, conn.phase.scan)
    requires !F.ScanStep(conn, buf + more, cfg).conn.phase.Fail?
    ensures var a := F.ScanStep(conn, buf, cfg); Holding(a) || a == F.ScanStep(conn, buf + more, cfg)
  {
    hide S.Judge, F.ScanStep, ScannedTo;
    var h := conn.phase.headLen;
    var region := buf[h..];
    DropAppend(buf, more, h);
    S.StepJudges(conn, buf, cfg, k);
    S.ScannedFurther(region, more, k, conn.phase.scan);
    S.StepJudges(conn, buf + more, cfg, k);
    S.JudgementExtends(cfg, region, more);
  }

  lemma {:induction false} StreamExtends(conn: Conn, buf: bytes, more: bytes)
    requires conn.phase.StreamBody? && !F.StreamStep(conn, buf + more).conn.phase.Fail?
    ensures var a := F.StreamStep(conn, buf); Holding(a) || a == F.StreamStep(conn, buf + more)
  {
    hide W.NextChunk, F.MethodIsHead;
    var after := conn.phase.afterPayload;
    if !W.NextChunk(buf, after).Wait? {
      W.NextExtends(buf, more, after);
    }
  }

  /** A head that ends within the bytes so far was complete without the rest. */
  lemma {:induction false} HeadWithin(tok: Tokenizer, buf: bytes, more: bytes)
    requires Sound(tok)
    ensures !tok.parse(buf).Partial? ==> tok.parse(buf + more) == tok.parse(buf)
    ensures tok.parse(buf + more).Parsed? && tok.parse(buf + more).facts.len <= |buf| ==>
              tok.parse(buf) == tok.parse(buf + more)
    ensures ParseOk(tok, buf)
  {
    assert ParseOk(tok, buf) && ParseOk(tok, buf + more);
    if tok.parse(buf + more).Parsed? && tok.parse(buf + more).facts.len <= |buf| {
      var n := tok.parse(buf + more).facts.len;
      TakeAppend(buf, more, n);
      assert buf == buf[..n] + buf[n..];
      assert tok.parse(buf[..n] + buf[n..]) == tok.parse(buf[..n]);
    }
  }

  lemma {:induction false} BodyExtends(conn: Conn, buf: bytes, more: bytes, cfg: Config, f: Facts, kind: BodyKind)
    requires f.len <= |buf| && conn.phase == AtHead && !F.BodyStep(conn, buf + more, cfg, f, kind).conn.phase.Fail?
    ensures var a := F.BodyStep(conn, buf, cfg, f, kind); Holding(a) || a == F.BodyStep(conn, buf + more, cfg, f, kind)
  {
    hide F.MethodIsHead, F.ScanStep;
    TakeAppend(buf, more, f.len);
    if !F.Streams(conn.streamCap, kind) && !F.Dances(f, kind) && kind.ChunkFramed? {
      ScanFromStart(buf[f.len..]);
      ScanExtends(conn.(phase := ScanBody(None, f.len, SCAN_START)), buf, more, cfg, 0);
    }
  }

  lemma {:induction false} HeadExtends(tok: Tokenizer, conn: Conn, buf: bytes, more: bytes, cfg: Config)
    requires Sound(tok) && conn.phase == AtHead && !F.HeadStep(tok, conn, buf + more, cfg).conn.phase.Fail?
    ensures var a := F.HeadStep(tok, conn, buf, cfg); Holding(a) || a == F.HeadStep(tok, conn, buf + more, cfg)
  {
    hide F.MethodIsHead, F.BodyStep, Sound;
    HeadWithin(tok, buf, more);
    if tok.parse(buf).Parsed? {
      var f := tok.parse(buf).facts;
      if f.body.BodyOk? && f.len <= cfg.maxHead {
        BodyExtends(conn.(index := IndexOf(f)), buf, more, cfg, f, f.body.kind);
      }
    }
  }

  /**
    In every reachable state: what the framer declares on the bytes so far it declares with more bytes
    behind them, and a refusal is never undone by more bytes. So it refuses no bytes that could still
    begin an acceptable message.
  */
  lemma {:induction false} FrameExtends(tok: Tokenizer, lim: Limits, sys: Sys, more: bytes)
    requires Sound(tok) && Inv(tok, lim, sys) && sys.open && !sys.conn.phase.Parked?
    requires !F.Frame(tok, sys.conn, sys.buf + more, lim.cfg).conn.phase.Fail?
    ensures var a := F.Frame(tok, sys.conn, sys.buf, lim.cfg);
            Holding(a) || a == F.Frame(tok, sys.conn, sys.buf + more, lim.cfg)
  {
    hide Legal, PastOk, Traced, Over, Sound, StreamAt, Interims, CallsRead, TrueView, Measured, F.HeadStep, F.ScanStep,
         F.StreamStep;
    var wire, conn, phase := sys.eaten + sys.buf, sys.conn, sys.conn.phase;
    if phase.AtHead? {
      HeadExtends(tok, conn, sys.buf, more, lim.cfg);
    } else {
      var f :| Mid(tok, lim, conn, wire, sys.log, f) && PhaseOk(tok, lim, phase, sys.eaten, wire, sys.log, f);
      match phase
      case ExpectBody(head, kind) =>
        if kind.ChunkFramed? {
          ScanFromStart(sys.buf[0..]);
          ScanExtends(conn.(phase := ScanBody(Some(head), 0, SCAN_START)), sys.buf, more, lim.cfg, 0);
        }
      case ScanBody(_, _, _) =>
        Region(tok, lim, phase, sys.eaten, sys.buf, sys.log, f);
        var k :| ScannedTo(wire[f.len..], k, phase.scan);
        ScanExtends(conn, sys.buf, more, lim.cfg, k);
      case StreamKnown(_, _) =>
      case StreamBody(_, _, _, _) => StreamExtends(conn, sys.buf, more);
    }
  }

  // ----- one pump

  /** An unparked connection whose unanswered bytes begin an admissible request, or hold all of it. */
  ghost predicate OnTrack(tok: Tokenizer, lim: Limits, sys: Sys, w: bytes, f: Facts) {
    && Sound(tok) && Inv(tok, lim, sys) && sys.open && !sys.conn.phase.Parked? && Admissible(tok, lim, w, f)
    && Comparable(sys.eaten + sys.buf, w)
  }

  predicate Comparable(a: bytes, b: bytes) {
    a <= b || b <= a
  }

  /** The pump leaves everything where it is, which it does only while some of the request is missing. */
  ghost predicate Waits(tok: Tokenizer, lim: Limits, sys: Sys, w: bytes, env: Env) {
    var next := PumpOnce(tok, lim, sys, env);
    |sys.eaten + sys.buf| < |w| && next == sys.(conn := next.conn) && !next.conn.phase.Parked?
  }

  lemma {:induction false} NotAFailure(tok: Tokenizer, lim: Limits, sys: Sys, w: bytes, env: Env, n: nat, r: Result)
    requires Heard(tok, lim, sys, w, env, n, r)
    ensures !F.Frame(tok, sys.conn, sys.buf, lim.cfg).conn.phase.Fail?
  {
    hide F.Frame;
  }

  lemma {:induction false} NeverParks(tok: Tokenizer, conn: Conn, buf: bytes, cfg: Config)
    requires !conn.phase.Parked?
    ensures !F.Frame(tok, conn, buf, cfg).conn.phase.Parked?
  {
    hide F.MethodIsHead, F.Scan, W.NextChunk;
  }

  /** A delivery declared with more bytes behind is the same delivery without them, once its own bytes are there. */
  lemma {:induction false} HeardWithout(tok: Tokenizer, lim: Limits, sys: Sys, more: bytes, w: bytes, env: Env, n: nat,
                                        r: Result)
    requires Heard(tok, lim, sys.(buf := sys.buf + more), w, env, n, r) && n <= |sys.buf|
    requires F.Frame(tok, sys.conn, sys.buf, lim.cfg) == F.Frame(tok, sys.conn, sys.buf + more, lim.cfg)
    ensures Heard(tok, lim, sys, w, env, n, r)
  {
    hide F.Frame, Step;
    var h := F.Frame(tok, sys.conn, sys.buf, lim.cfg).framing.headerLen;
    assert (sys.buf + more)[..h] == sys.buf[..h] && (sys.buf + more)[h..n] == sys.buf[h..n];
  }

  lemma {:induction false} Held(tok: Tokenizer, lim: Limits, sys: Sys, framed: F.Framed, env: Env)
    requires !framed.framing.Complete? || (0 < framed.framing.headerLen + framed.framing.bodyLen <= lim.reactorCap
                                           && |sys.buf| < framed.framing.headerLen + framed.framing.bodyLen)
    ensures Deliver(tok, lim, sys, framed, env) == sys.(conn := framed.conn)
  {
    hide Step, Record;
  }

  lemma {:induction false} Whole(tok: Tokenizer, lim: Limits, sys: Sys, more: bytes, w: bytes, f: Facts)
    requires OnTrack(tok, lim, sys, w, f) && sys.eaten + sys.buf + more == w
    ensures Ready(tok, lim, sys.(buf := sys.buf + more), w, f)
  {
    hide Inv, Admissible, Sound;
    ArriveKeeps(tok, lim, sys, more);
    AppendAppend(sys.eaten, sys.buf, more);
  }

  /**
    In every reachable state, on a connection that is neither parked nor draining and whose bytes are those
    of an admissible request, as many of them as have arrived: the next pump waits, which it does only
    while bytes are missing, or delivers some of the request, and nothing past it, to the handler or
    invites its body. The codec itself refuses nothing, whatever the handler says.
  */
  lemma {:induction false} NeverRefusedEarly(tok: Tokenizer, lim: Limits, sys: Sys, w: bytes, f: Facts, env: Env)
    returns (n: nat, r: Result)
    requires OnTrack(tok, lim, sys, w, f) && !env.draining
    ensures n == 0 ==> Waits(tok, lim, sys, w, env)
    ensures n > 0 ==> Heard(tok, lim, sys, w, env, n, r)
  {
    hide Inv, Admissible, Sound, Heard, F.Frame, Deliver;
    var wire := sys.eaten + sys.buf;
    if w <= wire {
      n, r := NeverRefused(tok, lim, sys, w, f, env);
      assert n > 0 by { HeardSome(tok, lim, sys, w, env, n, r); }
    } else {
      var more := w[|wire|..];
      assert wire + more == w;
      var whole := sys.(buf := sys.buf + more);
      Whole(tok, lim, sys, more, w, f);
      n, r := NeverRefused(tok, lim, whole, w, f, env);
      NotAFailure(tok, lim, whole, w, env, n, r);
      FrameExtends(tok, lim, sys, more);
      NeverParks(tok, sys.conn, sys.buf, lim.cfg);
      var framed := F.Frame(tok, sys.conn, sys.buf, lim.cfg);
      HeardSome(tok, lim, whole, w, env, n, r);
      if Holding(framed) || n > |sys.buf| {
        Held(tok, lim, sys, framed, env);
        n := 0;
      } else {
        HeardWithout(tok, lim, sys, more, w, env, n, r);
      }
    }
  }

  lemma {:induction false} HeardSome(tok: Tokenizer, lim: Limits, sys: Sys, w: bytes, env: Env, n: nat, r: Result)
    requires Heard(tok, lim, sys, w, env, n, r)
    ensures var framed := F.Frame(tok, sys.conn, sys.buf, lim.cfg);
            framed.framing.Complete? && 0 < n == framed.framing.headerLen + framed.framing.bodyLen <= lim.reactorCap
  {
    hide F.Frame, Step;
  }

  // ----- a handler that reads on

  /** The request was served in full, and nothing past it was taken. */
  ghost predicate Finished(tok: Tokenizer, lim: Limits, sys: Sys, w: bytes, f: Facts) {
    !sys.open && sys.eaten == w && Served(tok, lim, w, sys.log, f)
  }

  /** Whatever the invariant says was served is the request that arrived. */
  lemma {:induction false} ServedIs(tok: Tokenizer, lim: Limits, wire: bytes, log: seq<Event>, w: bytes, f: Facts)
    requires Sound(tok) && Traced(tok, lim, wire, log) && Comparable(wire, w) && IsRequest(tok, lim, w, f)
    requires LastCall(log).Some? && (LastCall(log).value.stage == Stage.Whole || LastCall(log).value.stage == End)
    ensures Served(tok, lim, w, log, f)
  {
    hide LastCall, TrueView, Measured, CallsRead, Sound, Served, IsRequest;
    var g :| HasHead(tok, lim, wire, g) && CallsRead(log, wire[..g.len],
                                                     TrueView(wire, g)) && Given(tok, lim, wire, log, g);
    var v :| v <= wire && Served(tok, lim, v, log, g);
    var s := if w <= wire then wire else w;
    ServedIsRequest(tok, lim, v, log, g);
    RequestsArePrefixFree(tok, lim, s, v, w, g, f);
  }

  lemma {:induction false} PumpIs(tok: Tokenizer, lim: Limits, sys: Sys, env: Env, n: nat, r: Result)
    requires Delivers(tok, lim, sys, env, n, r)
    ensures PumpOnce(tok, lim, sys, env) == Record(sys, n, r)
  {
    hide F.Frame, Step, Record, Deliver;
    var framed := F.Frame(tok, sys.conn, sys.buf, lim.cfg);
    DeliverWhole(tok, lim, sys, framed.conn, framed.framing.headerLen, framed.framing.bodyLen, env);
  }

  /** One pump with a handler that reads on: the request is finished, or is still on its way and closer to it. */
  lemma {:induction false} ReadsOn(tok: Tokenizer, lim: Limits, sys: Sys, w: bytes, f: Facts, env: Env)
    requires OnTrack(tok, lim, sys, w, f) && Continues(env)
    ensures var next := PumpOnce(tok, lim, sys, env);
            && next.eaten + next.buf == sys.eaten + sys.buf && next.past == sys.past
            && (Finished(tok, lim, next, w, f) || (OnTrack(tok, lim, next, w, f) && |sys.eaten| <= |next.eaten|))
            && (w <= sys.eaten + sys.buf ==> |sys.eaten| < |next.eaten| <= |w|)
  {
    hide Admissible, Sound, Heard, PumpOnce, Record, Inv, Finished;
    var next := PumpOnce(tok, lim, sys, env);
    PumpKeeps(tok, lim, sys, env);
    var n, r := NeverRefusedEarly(tok, lim, sys, w, f, env);
    if n > 0 {
      assert Delivers(tok, lim, sys, env, n, r) && |sys.eaten| + n <= |w| && Goes(r) && n <= |sys.buf|
        by { HeardMeans(tok, lim, sys, w, env, n, r); }
      PumpIs(tok, lim, sys, env, n, r);
      Cut(sys.eaten, sys.buf, n);
      RecordsTo(sys, n, r);
      if Final(r) {
        HeardMeans(tok, lim, sys, w, env, n, r);
        Finishes(tok, lim, sys, w, f, env, n, r);
      }
    }
  }

  lemma {:induction false} HeardMeans(tok: Tokenizer, lim: Limits, sys: Sys, w: bytes, env: Env, n: nat, r: Result)
    requires Heard(tok, lim, sys, w, env, n, r) && Continues(env)
    ensures Delivers(tok, lim, sys, env, n, r) && |sys.eaten| + n <= |w| && Goes(r) && n <= |sys.buf|
    ensures Final(r) ==> |sys.eaten| + n == |w|
  {
    hide F.Frame, Step;
  }

  lemma {:induction false} RecordsTo(sys: Sys, n: nat, r: Result)
    requires n <= |sys.buf| && Goes(r)
    ensures var next := Record(sys, n, r);
            && next.eaten == sys.eaten + sys.buf[..n] && next.buf == sys.buf[n..] && next.past == sys.past
            && next.conn == r.conn
            && next.log == sys.log + Events(r.calls) + [Sent(r.resp)] && next.open == !Final(r)
  {
    hide Events;
  }

  lemma {:induction false} Finishes(tok: Tokenizer, lim: Limits, sys: Sys, w: bytes, f: Facts, env: Env, n: nat,
                                    r: Result)
    requires OnTrack(tok, lim, sys, w, f) && n <= |sys.buf| && |sys.eaten| + n == |w| && Final(r) && Goes(r)
    requires Inv(tok, lim, Record(sys, n, r))
    ensures Finished(tok, lim, Record(sys, n, r), w, f)
  {
    hide Legal, PastOk, Over, Sound, Record, Events, LastCall, Traced, Waiting, Served;
    var next := Record(sys, n, r);
    RecordsTo(sys, n, r);
    LastOfEvents(sys.log, r.calls);
    LastStays(sys.log + Events(r.calls), r.resp);
    Cut(sys.eaten, sys.buf, n);
    ServedIs(tok, lim, next.eaten + next.buf, next.log, w, f);
    assert next.eaten == w by { AllEaten(sys.eaten, sys.buf, n, w); }
  }

  lemma {:induction false} AllEaten(eaten: bytes, buf: bytes, n: nat, w: bytes)
    requires n <= |buf| && Comparable(eaten + buf, w) && |eaten| + n == |w|
    ensures eaten + buf[..n] == w
  {
    assert w == (eaten + buf)[..|w|];
  }

  // ----- every run

  /** What a run is made of here: arrivals, and pumps with a handler that reads on. */
  predicate Reading(a: Action) {
    a.Arrive? || (a.Pump? && Continues(a.env))
  }

  predicate AllReading(actions: seq<Action>) {
    forall i :: 0 <= i < |actions| ==> Reading(actions[i])
  }

  predicate AllPumps(actions: seq<Action>) {
    forall i :: 0 <= i < |actions| ==> actions[i].Pump? && Continues(actions[i].env)
  }

  lemma {:induction false} StaysComparable(a: bytes, b: bytes, w: bytes)
    requires Comparable(a + b, w)
    ensures Comparable(a, w)
  {
    if a + b <= w {
      assert a == w[..|a|];
    } else if |w| <= |a| {
      assert w == a[..|w|];
    } else {
      assert a == w[..|a|];
    }
  }

  /**
    From every state on the way of an admissible request, through every interleaving of arrivals and
    pumps with a handler that reads on: the connection stays on that way, or has served the request
    in full, all of which had then arrived, and took nothing past it.
  */
  lemma {:induction false} StaysOnTrack(tok: Tokenizer, lim: Limits, sys: Sys, actions: seq<Action>, w: bytes, f: Facts)
    requires OnTrack(tok, lim, sys, w, f) && AllReading(actions)
    requires Comparable(sys.eaten + sys.buf + Arrived(actions), w)
    ensures var end, all := Exec(tok, lim, sys, actions), sys.eaten + sys.buf + Arrived(actions);
            && end.past == sys.past
            && if end.open then OnTrack(tok, lim, end, w, f) && end.eaten + end.buf == all
               else Finished(tok, lim, end, w, f) && w + end.buf <= all
    decreases |actions|
  {
    hide Admissible, Sound, Inv, PumpOnce, Finished;
    var wire := sys.eaten + sys.buf;
    if actions == [] {
      Empties(wire);
    } else {
      var rest := actions[1..];
      assert Reading(actions[0]) && AllReading(rest);
      var next := Act(tok, lim, sys, actions[0]);
      if actions[0].Arrive? {
        Arrives(tok, lim, sys, actions[0].bs, Arrived(rest), w, f);
        StaysOnTrack(tok, lim, next, rest, w, f);
      } else {
        Empties(Arrived(rest));
        ReadsOn(tok, lim, sys, w, f, actions[0].env);
        if next.open {
          assert OnTrack(tok, lim, next, w, f) by { FinishedIsShut(tok, lim, next, w, f); }
          StaysOnTrack(tok, lim, next, rest, w, f);
        } else {
          Closed(tok, lim, next, rest);
          FinishedIsShut(tok, lim, next, w, f);
        }
      }
    }
  }

  lemma {:induction false} FinishedIsShut(tok: Tokenizer, lim: Limits, sys: Sys, w: bytes, f: Facts)
    ensures Finished(tok, lim, sys, w, f) ==> !sys.open && sys.eaten == w
    ensures OnTrack(tok, lim, sys, w, f) ==> sys.open
  {
    hide Served, Inv, Admissible, Sound;
  }

  lemma {:induction false} Arrives(tok: Tokenizer, lim: Limits, sys: Sys, bs: bytes, later: bytes, w: bytes, f: Facts)
    requires OnTrack(tok, lim, sys, w, f) && Comparable(sys.eaten + sys.buf + (bs + later), w)
    ensures var next := sys.(buf := sys.buf + bs);
            && OnTrack(tok, lim, next, w, f)
            && next.eaten + next.buf + later == sys.eaten + sys.buf + (bs + later)
  {
    hide Admissible, Sound, Inv;
    var wire := sys.eaten + sys.buf;
    ArriveKeeps(tok, lim, sys, bs);
    AppendAppend(sys.eaten, sys.buf, bs);
    AppendAppend(wire, bs, later);
    StaysComparable(wire + bs, later, w);
  }

  /** Once all of the request has arrived, as many pumps as it has bytes left finish it. */
  lemma {:induction false} PumpsFinish(tok: Tokenizer, lim: Limits, sys: Sys, pumps: seq<Action>, w: bytes, f: Facts)
    requires OnTrack(tok, lim, sys, w, f) && w <= sys.eaten + sys.buf && AllPumps(pumps)
    requires |w| <= |sys.eaten| + |pumps|
    ensures var end := Exec(tok, lim, sys, pumps);
            Finished(tok, lim, end, w, f) && end.eaten + end.buf == sys.eaten + sys.buf && end.past == sys.past
    decreases |pumps|
  {
    hide Admissible, Sound, Inv, PumpOnce, Finished;
    var env := if pumps == [] then Env(false, false, Continue, Continue, Redrive) else pumps[0].env;
    ReadsOn(tok, lim, sys, w, f, env);
    var rest, next := pumps[1..], PumpOnce(tok, lim, sys, env);
    assert Act(tok, lim, sys, pumps[0]) == next;
    FinishedIsShut(tok, lim, next, w, f);
    if next.open {
      PumpsFinish(tok, lim, next, rest, w, f);
    } else {
      Closed(tok, lim, next, rest);
    }
  }

  lemma {:induction false} ExecThen(tok: Tokenizer, lim: Limits, sys: Sys, a: seq<Action>, b: seq<Action>)
    ensures Exec(tok, lim, sys, a + b) == Exec(tok, lim, Exec(tok, lim, sys, a), b)
    decreases |a|
  {
    hide Act;
    if a == [] {
      assert a + b == b;
    } else {
      assert (a + b)[0] == a[0] && (a + b)[1..] == a[1..] + b;
      ExecThen(tok, lim, Act(tok, lim, sys, a[0]), a[1..], b);
    }
  }

  lemma {:induction false} StartsOnTrack(tok: Tokenizer, lim: Limits, w: bytes, f: Facts)
    requires Sound(tok) && Admissible(tok, lim, w, f)
    ensures OnTrack(tok, lim, Start(lim), w, f)
  {
    hide Sound, Admissible, Inv;
    StartHolds(tok, lim);
  }

  /**
    From a fresh connection, for every admissible request, every cutting of its bytes and of whatever
    follows into arrivals, and every interleaving of those with pumps whose handler reads on: while
    some of the request is missing the connection is open, nothing has been answered, and no byte
    is lost; once it has all arrived, as many pumps as it has bytes finish it, with what follows untouched.
  */
  lemma {:induction false} RequestsInPieces(tok: Tokenizer, lim: Limits, actions: seq<Action>, pumps: seq<Action>,
                                            w: bytes, following: bytes, f: Facts)
    requires Sound(tok) && Admissible(tok, lim, w, f) && AllReading(actions) && Arrived(actions) <= w + following
    requires AllPumps(pumps)
    ensures var sys := Exec(tok, lim, Start(lim), actions);
            && sys.past == []
            && (|Arrived(actions)| < |w| ==> sys.open)
            && if sys.open then !Over(sys.log) && sys.eaten + sys.buf == Arrived(actions)
               else Finished(tok, lim, sys, w, f) && w + sys.buf <= Arrived(actions)
    ensures var end := Exec(tok, lim, Start(lim), actions + pumps);
            w <= Arrived(actions) && |w| <= |pumps| ==>
              Finished(tok, lim, end, w, f) && end.past == [] && w + end.buf <= Arrived(actions)
  {
    hide Admissible, Sound, Exec, Finished, Legal, PastOk, Traced, Waiting, Over;
    var start := Start(lim);
    assert start.eaten + start.buf + Arrived(actions) == Arrived(actions);
    assert w == (w + following)[..|w|];
    StartsOnTrack(tok, lim, w, f);
    assert Comparable(Arrived(actions), w) by { Prefixes(Arrived(actions), w, following); }
    StaysOnTrack(tok, lim, start, actions, w, f);
    var sys := Exec(tok, lim, start, actions);
    ExecThen(tok, lim, start, actions, pumps);
    if sys.open && w <= Arrived(actions) && |w| <= |pumps| {
      PumpsFinish(tok, lim, sys, pumps, w, f);
      FinishedIsShut(tok, lim, Exec(tok, lim, sys, pumps), w, f);
    } else if !sys.open {
      Closed(tok, lim, sys, pumps);
    }
  }

  lemma {:induction false} Prefixes(a: bytes, w: bytes, following: bytes)
    requires a <= w + following
    ensures Comparable(a, w)
  {
    if |a| <= |w| {
      assert a == w[..|a|];
    } else {
      assert w == a[..|w|];
    }
  }
}
