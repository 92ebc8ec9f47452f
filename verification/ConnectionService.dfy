/**
  A connection whose handlers and workers do their part: through any pieces, parks, resumptions and
  redrives, the requests of a stream are served one behind the other.
*/
module ConnectionService {
  import opened Bytes
  import opened HttpTypes
  import opened Glue
  import opened Connection
  import opened ConnectionInvariant
  import opened ConnectionSteps
  import opened ConnectionSafety
  import opened ConnectionProgress
  import opened ConnectionTheorems
  import opened ConnectionArrivals
  import opened ConnectionAnswers
  import F = Framer

  // ----- doing one's part

  predicate IsFinal(stage: Stage) {
    stage == Stage.Whole || stage == End
  }

  /** A handler reads a stream on, answers a complete request without asking to close, or parks either. */
  predicate Cooperates(choice: Choice, stage: Stage) {
    match choice
    case Park(_) => true
    case Continue => !IsFinal(stage)
    case Respond(wantsClose, _) => IsFinal(stage) && !wantsClose
  }

  /** A worker answers a complete request, resumes a stream, or has the handler look again. */
  predicate WorkerCooperates(outcome: Outcome, resume: Option<StreamPark>) {
    match outcome
    case Answered(wantsClose, _) => resume.None? && !wantsClose
    case Resume => resume.Some?
    case Redrive => true
  }

  predicate Willing(env: Env, calls: seq<Dispatch>) {
    calls != [] ==> Cooperates(ChoiceOf(env, |calls|), calls[|calls| - 1].stage)
  }

  /** The handler called last does not park. */
  predicate Prompt(env: Env, calls: seq<Dispatch>) {
    calls != [] ==> !ChoiceOf(env, |calls|).Park?
  }

  /** An action that does its part in this state: bytes arrive, or what is called or resolved is met as above. */
  predicate Helps(tok: Tokenizer, lim: Limits, sys: Sys, a: Action) {
    match a
    case Arrive(_) => true
    case Abandon => false
    case Pump(env) =>
      && !env.draining && !env.drainingAfter
      && (Delivery(tok, lim, sys, a).Some? ==> Willing(env, Delivery(tok, lim, sys, a).value.calls))
    case Complete(env) =>
      && !env.drainingAfter
      && (Delivery(tok, lim, sys, a).Some? ==>
            && WorkerCooperates(env.outcome, sys.conn.phase.resume)
            && Willing(env, Delivery(tok, lim, sys, a).value.calls))
  }

  // ----- one request

  /** A request the limits admit, with a head that lets the connection persist. */
  ghost predicate Welcome(tok: Tokenizer, lim: Limits, w: bytes, f: Facts) {
    Admissible(tok, lim, w, f) && tok.persists(TrueView(w, f))
  }

  /** An open connection whose unanswered bytes begin that request, or hold all of it; parked or not. */
  ghost predicate Underway(tok: Tokenizer, lim: Limits, sys: Sys, w: bytes, f: Facts) {
    && Sound(tok) && WholeHeads(tok) && Inv(tok, lim, sys) && sys.open
    && Welcome(tok, lim, w, f) && Comparable(sys.eaten + sys.buf, w) && |sys.eaten| <= |w|
  }

  /** The request was answered: it is the last of the past, served in full, and the connection is open behind it. */
  ghost predicate Answered(tok: Tokenizer, lim: Limits, sys: Sys, next: Sys, w: bytes, f: Facts) {
    && Inv(tok, lim, next) && next.open && next.eaten == [] && !next.conn.phase.Parked?
    && exists log :: next.past == sys.past + [Exchange(w, log)] && Served(tok, lim, w, log, f)
  }

  /** One action on: the request is still under way, with no byte lost, or it was answered. */
  ghost predicate Onward(tok: Tokenizer, lim: Limits, sys: Sys, next: Sys, all: bytes, w: bytes, f: Facts) {
    || (Underway(tok, lim, next, w, f) && next.past == sys.past && next.eaten + next.buf == all)
    || (Answered(tok, lim, sys, next, w, f) && w + next.buf == all)
  }

  /** A request answered on a connection that stays open is the one under way. */
  lemma {:induction false} AnsweredIs(tok: Tokenizer, lim: Limits, wire: bytes, e: Exchange, w: bytes, f: Facts)
    requires Sound(tok) && ServedExchange(tok, lim, e) && e.wire <= wire && Comparable(wire, w)
    requires IsRequest(tok, lim, w, f)
    ensures e.wire == w && Served(tok, lim, w, e.log, f)
  {
    hide Served, IsRequest, Sound, Over;
    var g :| Served(tok, lim, e.wire, e.log, g);
    ServedIsRequest(tok, lim, e.wire, e.log, g);
    var s := if w <= wire then wire else w;
    assert e.wire <= s by {
      if wire <= w {
        PrefixOfPrefix(e.wire, wire, w);
      }
    }
    RequestsArePrefixFree(tok, lim, s, e.wire, w, g, f);
  }

  lemma {:induction false} WelcomeIs(tok: Tokenizer, lim: Limits, w: bytes, f: Facts)
    requires Welcome(tok, lim, w, f)
    ensures Admissible(tok, lim, w, f) && IsRequest(tok, lim, w, f) && HasHead(tok, lim, w, f)
  {
    hide Admits, IsBody, BufferNeeded;
  }

  /** Recording a delivery whose response does not close. */
  lemma {:induction false} RecordGoes(tok: Tokenizer, lim: Limits, sys: Sys, n: nat, r: Result, w: bytes, f: Facts)
    requires Underway(tok, lim, sys, w, f) && n <= |sys.buf| && |sys.eaten| + n <= |w| && !Closes(r.resp)
    requires Inv(tok, lim, Record(sys, n, r)) && (KeepsOpen(r.resp) ==> !r.conn.phase.Parked?)
    ensures Onward(tok, lim, sys, Record(sys, n, r), sys.eaten + sys.buf, w, f)
  {
    hide Inv, Welcome, Sound, WholeHeads, Events, Served, ServedExchange, IsRequest, HasHead, Admissible;
    var next, all := Record(sys, n, r), sys.eaten + sys.buf;
    Cut(sys.eaten, sys.buf, n);
    if KeepsOpen(r.resp) {
      var e := Exchange(sys.eaten + sys.buf[..n], sys.log + Events(r.calls) + [Sent(r.resp)]);
      assert next.past == sys.past + [e];
      LastServed(tok, lim, next);
      assert next.past[|next.past| - 1] == e;
      WelcomeIs(tok, lim, w, f);
      assert e.wire <= all;
      AnsweredIs(tok, lim, all, e, w, f);
      assert e == Exchange(w, e.log);
    }
  }

  lemma {:induction false} LastServed(tok: Tokenizer, lim: Limits, sys: Sys)
    requires Inv(tok, lim, sys) && sys.past != []
    ensures ServedExchange(tok, lim, sys.past[|sys.past| - 1])
  {
    hide ServedExchange, Legal, Traced, Waiting, Over;
  }

  /** A handler that was told the request is complete was told so of this one, all of which had arrived. */
  lemma {:induction false} AllThere(tok: Tokenizer, lim: Limits, wire: bytes, log: seq<Event>, w: bytes, f: Facts)
    requires Sound(tok) && Traced(tok, lim, wire, log) && Told(log) && Comparable(wire, w) && IsRequest(tok, lim, w, f)
    ensures w <= wire
  {
    hide LastCall, TrueView, Measured, CallsRead, Sound, Served, IsRequest;
    var g :| HasHead(tok, lim, wire, g) && CallsRead(log, wire[..g.len],
                                                     TrueView(wire, g)) && Given(tok, lim, wire, log, g);
    var v :| v <= wire && Served(tok, lim, v, log, g);
    ServedIsRequest(tok, lim, v, log, g);
    var s := if w <= wire then wire else w;
    assert v <= s by {
      if wire <= w {
        PrefixOfPrefix(v, wire, w);
      }
    }
    RequestsArePrefixFree(tok, lim, s, v, w, g, f);
  }

  /** The call that completes the request was given its head. */
  lemma {:induction false} CallView(tok: Tokenizer, lim: Limits, sys: Sys, n: nat, r: Result, w: bytes, f: Facts)
    requires Underway(tok, lim, sys, w, f) && n <= |sys.buf|
    requires Inv(tok, lim, Record(sys, n, r)) && !KeepsOpen(r.resp) && Told(sys.log + Events(r.calls))
    ensures LastCall(sys.log + Events(r.calls)).value.view == TrueView(w, f)
  {
    hide Legal, PastOk, Over, Sound, WholeHeads, Events, LastCall, Waiting, Measured, Given, Admissible, TrueView;
    var next, wire := Record(sys, n, r), sys.eaten + sys.buf;
    Cut(sys.eaten, sys.buf, n);
    LastStays(sys.log + Events(r.calls), r.resp);
    var g :| HasHead(tok, lim, wire, g) && CallsRead(next.log, wire[..g.len],
                                                     TrueView(wire, g)) && Given(tok, lim, wire, next.log, g);
    WelcomeIs(tok, lim, w, f);
    AllThere(tok, lim, wire, next.log, w, f);
    SameHead(tok, lim, wire, w, f, g);
    SameView(tok, lim, wire, w, f);
  }

  lemma {:induction false} SameView(tok: Tokenizer, lim: Limits, wire: bytes, w: bytes, f: Facts)
    requires HasHead(tok, lim, wire, f) && HasHead(tok, lim, w, f) && wire[..f.len] == w[..f.len]
    ensures TrueView(wire, f) == TrueView(w, f)
  {
    PartsAre(wire, f);
    PartsAre(w, f);
  }

  /** A handler that does its part keeps the connection; one that answers a complete request keeps it for the next. */
  lemma {:induction false} WordKeeps(tok: Tokenizer, wire: bytes, log: seq<Event>, env: Env, r: Result)
    requires Replied(tok, wire, log, env, r) && r.calls != [] && Willing(env, r.calls) && !env.drainingAfter
    requires var d := r.calls[|r.calls| - 1]; IsFinal(d.stage) ==> KeepsOpen(r.resp) || tok.persists(d.view)
    ensures !Closes(r.resp) && (KeepsOpen(r.resp) ==> !r.conn.phase.Parked?)
    ensures !ChoiceOf(env, |r.calls|).Park? ==>
              !r.conn.phase.Parked? && (KeepsOpen(r.resp) <==> IsFinal(r.calls[|r.calls| - 1].stage))
  {
    hide LastCall, Events, F.MethodIsHead;
    LastOfEvents(log, r.calls);
  }

  /** What a delivery said, once it is known to keep to the request. */
  lemma {:induction false} CalledGoes(tok: Tokenizer, lim: Limits, sys: Sys, n: nat, r: Result, env: Env, w: bytes,
                                      f: Facts)
    requires Underway(tok, lim, sys, w, f) && n <= |sys.buf| && |sys.eaten| + n <= |w|
    requires Inv(tok, lim, Record(sys, n, r))
    requires Replied(tok, sys.eaten + sys.buf, sys.log, env, r)
    requires r.calls != [] && Willing(env, r.calls) && !env.drainingAfter
    ensures !Closes(r.resp) && Onward(tok, lim, sys, Record(sys, n, r), sys.eaten + sys.buf, w, f)
    ensures !ChoiceOf(env, |r.calls|).Park? ==>
              !r.conn.phase.Parked? && (KeepsOpen(r.resp) <==> IsFinal(r.calls[|r.calls| - 1].stage))
  {
    hide Inv, Sound, WholeHeads, Admissible, TrueView, Record, Events, LastCall, Replied, Willing, Onward;
    LastOfEvents(sys.log, r.calls);
    if IsFinal(r.calls[|r.calls| - 1].stage) && !KeepsOpen(r.resp) {
      CallView(tok, lim, sys, n, r, w, f);
    }
    WordKeeps(tok, sys.eaten + sys.buf, sys.log, env, r);
    RecordGoes(tok, lim, sys, n, r, w, f);
  }

  lemma {:induction false} DeliveredIs(tok: Tokenizer, lim: Limits, sys: Sys, env: Env, n: nat, r: Result)
    requires Delivers(tok, lim, sys, env, n, r)
    ensures Delivery(tok, lim, sys, Pump(env)) == Some(r)
  {
    hide F.Frame, Step;
  }

  lemma {:induction false} HeardHow(tok: Tokenizer, lim: Limits, sys: Sys, w: bytes, env: Env, n: nat, r: Result)
    requires Heard(tok, lim, sys, w, env, n, r)
    ensures Delivers(tok, lim, sys, env, n, r) && 0 < n <= |sys.buf| && |sys.eaten| + n <= |w|
    ensures r.calls != [] || r.resp == Reply(Interim)
  {
    hide F.Frame, Step;
  }

  /** Outside a park: the pump waits for bytes, or takes the request on. */
  lemma {:induction false} PumpHelps(tok: Tokenizer, lim: Limits, sys: Sys, w: bytes, f: Facts, env: Env)
    requires Underway(tok, lim, sys, w, f) && !sys.conn.phase.Parked? && Helps(tok, lim, sys, Pump(env))
    ensures var next, r := PumpOnce(tok, lim, sys, env), Delivery(tok, lim, sys, Pump(env));
            && Onward(tok, lim, sys, next, sys.eaten + sys.buf, w, f)
            && (w <= sys.eaten + sys.buf && next.past == sys.past ==> |sys.eaten| < |next.eaten| <= |w|)
            && (r.None? || Prompt(env, r.value.calls) ==> !next.conn.phase.Parked?)
  {
    hide Sound, WholeHeads, Inv, Admissible, TrueView, PumpOnce, Heard, Record, Delivery, Replied, Onward;
    var wire, next := sys.eaten + sys.buf, PumpOnce(tok, lim, sys, env);
    PumpKeeps(tok, lim, sys, env);
    WelcomeIs(tok, lim, w, f);
    var n, r := NeverRefusedEarly(tok, lim, sys, w, f, env);
    if n == 0 {
      StillUnderway(tok, lim, sys, next, w, f);
    } else {
      HeardHow(tok, lim, sys, w, env, n, r);
      PumpIs(tok, lim, sys, env, n, r);
      DeliveredIs(tok, lim, sys, env, n, r);
      PumpReplied(tok, lim, sys, env);
      TakesOn(tok, lim, sys, n, r, env, w, f);
    }
  }

  lemma {:induction false} StillUnderway(tok: Tokenizer, lim: Limits, sys: Sys, next: Sys, w: bytes, f: Facts)
    requires Underway(tok, lim, sys, w, f) && next == sys.(conn := next.conn) && Inv(tok, lim, next)
    ensures Onward(tok, lim, sys, next, sys.eaten + sys.buf, w, f)
  {
    hide Sound, WholeHeads, Inv, Welcome;
  }

  lemma {:induction false} TakesOn(tok: Tokenizer, lim: Limits, sys: Sys, n: nat, r: Result, env: Env, w: bytes,
                                   f: Facts)
    requires Underway(tok, lim, sys, w, f) && 0 < n <= |sys.buf| && |sys.eaten| + n <= |w|
    requires Inv(tok, lim, Record(sys, n, r)) && Replied(tok, sys.eaten + sys.buf, sys.log, env, r)
    requires r.calls != [] || r.resp == Reply(Interim)
    requires Willing(env, r.calls) && !env.drainingAfter
    ensures var next := Record(sys, n, r);
            && Onward(tok, lim, sys, next, sys.eaten + sys.buf, w, f)
            && (next.past == sys.past ==> |sys.eaten| < |next.eaten| <= |w|)
            && (Prompt(env, r.calls) ==> !next.conn.phase.Parked?)
  {
    hide Sound, WholeHeads, Inv, Admissible, TrueView, Events, Replied, Onward, Willing;
    NotParkedSilently(tok, sys.eaten + sys.buf, sys.log, env, r);
    if r.calls == [] {
      RecordGoes(tok, lim, sys, n, r, w, f);
    } else {
      CalledGoes(tok, lim, sys, n, r, env, w, f);
    }
  }

  /** A park with nothing to resume holds a complete request. */
  lemma {:induction false} ParkTold(tok: Tokenizer, lim: Limits, sys: Sys)
    requires Inv(tok, lim, sys) && sys.open && sys.conn.phase.Parked? && sys.conn.phase.resume.None?
    ensures Told(sys.log)
  {
    hide Legal, PastOk, Traced, Over, CallsRead, TrueView, Measured, Served, HasHead, LastCall;
  }

  /** A worker's answer to a complete request keeps the connection for the next. */
  lemma {:induction false} WorkerAnswers(tok: Tokenizer, lim: Limits, sys: Sys, r: Result, env: Env, w: bytes, f: Facts)
    requires Underway(tok, lim, sys, w, f) && Inv(tok, lim, Record(sys, 0, r)) && Told(sys.log)
    requires Replied(tok, sys.eaten + sys.buf, sys.log, env, r) && r.calls == []
    requires env.outcome.Answered? && !env.outcome.wantsClose && !env.drainingAfter
    ensures KeepsOpen(r.resp) && Onward(tok, lim, sys, Record(sys, 0, r), sys.eaten + sys.buf, w, f)
  {
    hide Inv, Sound, WholeHeads, Admissible, TrueView, Record, LastCall, Onward, F.MethodIsHead;
    assert Events([]) == [];
    Empties(sys.log);
    if !KeepsOpen(r.resp) {
      CallView(tok, lim, sys, 0, r, w, f);
    }
    RecordGoes(tok, lim, sys, 0, r, w, f);
  }

  lemma {:induction false} ResolveIs(tok: Tokenizer, lim: Limits, sys: Sys, env: Env)
    ensures match Delivery(tok, lim, sys, Action.Complete(env))
            case None => Resolve(tok, sys, env) == sys
            case Some(r) => r == Step(tok, sys.conn, [], [], env) && Resolve(tok, sys, env) == Record(sys, 0, r)
                            && sys.conn.phase.Parked?
  {
    hide Step, Record;
  }

  /** A park resolved without a call was answered by its worker, or goes on. */
  lemma {:induction false} SilentOnly(tok: Tokenizer, was: Conn, env: Env, view: View)
    requires was.phase.Parked? && HeadView(tok, was.index, was.phase.req.head) == Some(view)
    requires Step(tok, was, [], [], env).calls == []
    ensures || env.outcome.Answered?
            || (env.outcome.Resume? && (was.phase.resume.Some? ==> !Closes(Step(tok, was, [], [], env).resp)))
  {
    hide HeadView, Negotiate;
  }

  /** In a park: a worker that does its part takes the request on. */
  lemma {:induction false} CompleteHelps(tok: Tokenizer, lim: Limits, sys: Sys, w: bytes, f: Facts, env: Env)
    requires Underway(tok, lim, sys, w, f) && Helps(tok, lim, sys, Action.Complete(env))
    ensures var next, r := Resolve(tok, sys, env), Delivery(tok, lim, sys, Action.Complete(env));
            && Onward(tok, lim, sys, next, sys.eaten + sys.buf, w, f)
            && (next.past == sys.past ==> next.eaten == sys.eaten)
            && (r.Some? && Prompt(env, r.value.calls) ==> !next.conn.phase.Parked?)
  {
    hide Sound, WholeHeads, Inv, Welcome, Record, Delivery, Replied, Step;
    ResolveIs(tok, lim, sys, env);
    ResolveKeeps(tok, lim, sys, env);
    if Delivery(tok, lim, sys, Action.Complete(env)).Some? {
      var r := Step(tok, sys.conn, [], [], env);
      ResolveReplied(tok, lim, sys, env);
      ResolvedGoes(tok, lim, sys, r, env, w, f);
    }
  }

  lemma {:induction false} ResolvedGoes(tok: Tokenizer, lim: Limits, sys: Sys, r: Result, env: Env, w: bytes, f: Facts)
    requires Underway(tok, lim, sys, w, f) && sys.conn.phase.Parked? && r == Step(tok, sys.conn, [], [], env)
    requires Inv(tok, lim, Record(sys, 0, r)) && Replied(tok, sys.eaten + sys.buf, sys.log, env, r)
    requires WorkerCooperates(env.outcome, sys.conn.phase.resume) && Willing(env, r.calls) && !env.drainingAfter
    ensures var next := Record(sys, 0, r);
            && Onward(tok, lim, sys, next, sys.eaten + sys.buf, w, f)
            && (next.past == sys.past ==> next.eaten == sys.eaten)
            && (Prompt(env, r.calls) ==> !next.conn.phase.Parked?)
  {
    hide Sound, WholeHeads, Inv, Welcome, Step, Replied, Willing, Onward, Record;
    RecordsConn(sys, r);
    NotParkedSilently(tok, sys.eaten + sys.buf, sys.log, env, r);
    if r.calls != [] {
      CalledGoes(tok, lim, sys, 0, r, env, w, f);
    } else {
      var view := ParkView(tok, lim, sys);
      SilentOnly(tok, sys.conn, env, view);
      if env.outcome.Answered? {
        ParkTold(tok, lim, sys);
        WorkerAnswers(tok, lim, sys, r, env, w, f);
      } else {
        RecordGoes(tok, lim, sys, 0, r, w, f);
      }
    }
  }

  lemma {:induction false} RecordsConn(sys: Sys, r: Result)
    ensures Record(sys, 0, r).conn == r.conn
    ensures Record(sys, 0, r).past == sys.past ==> Record(sys, 0, r).eaten == sys.eaten
  {
    hide Events;
    Empties(sys.eaten);
    assert sys.buf[..0] == [];
  }

  lemma {:induction false} NotParkedSilently(tok: Tokenizer, wire: bytes, log: seq<Event>, env: Env, r: Result)
    requires Replied(tok, wire, log, env, r)
    ensures r.calls == [] ==> !r.conn.phase.Parked?
    ensures Prompt(env, r.calls) ==> !r.conn.phase.Parked?
  {
    hide LastCall, F.MethodIsHead, Events;
  }

  lemma {:induction false} ParkView(tok: Tokenizer, lim: Limits, sys: Sys) returns (view: View)
    requires Sound(tok) && Inv(tok, lim, sys) && sys.open && sys.conn.phase.Parked?
    ensures HeadView(tok, sys.conn.index, sys.conn.phase.req.head) == Some(view)
  {
    hide Legal, PastOk, Traced, Over, Sound, Measured, CallsRead, TrueView, StreamAt, OwesEnd, Served, LastCall,
         Interims, HeadView;
    var wire := sys.eaten + sys.buf;
    var f :| Mid(tok, lim, sys.conn, wire, sys.log, f)
             && PhaseOk(tok, lim, sys.conn.phase, sys.eaten, wire, sys.log, f);
    ViewFound(tok, lim, sys.conn, wire, f);
    view := TrueView(wire, f);
  }

  lemma {:induction false} ArriveHelps(tok: Tokenizer, lim: Limits, sys: Sys, w: bytes, f: Facts, bs: bytes)
    requires Underway(tok, lim, sys, w, f) && Comparable(sys.eaten + sys.buf + bs, w)
    ensures Onward(tok, lim, sys, sys.(buf := sys.buf + bs), sys.eaten + sys.buf + bs, w, f)
  {
    hide Sound, WholeHeads, Inv, Welcome;
    ArriveKeeps(tok, lim, sys, bs);
    AppendAppend(sys.eaten, sys.buf, bs);
  }

  function Brings(a: Action): bytes {
    if a.Arrive? then a.bs else []
  }

  /** One action that does its part, in any state on the way of a welcome request, parked or not. */
  lemma {:induction false} HelpsOn(tok: Tokenizer, lim: Limits, sys: Sys, w: bytes, f: Facts, a: Action)
    requires Underway(tok, lim, sys, w, f) && Helps(tok, lim, sys, a)
    requires Comparable(sys.eaten + sys.buf + Brings(a), w)
    ensures Onward(tok, lim, sys, Act(tok, lim, sys, a), sys.eaten + sys.buf + Brings(a), w, f)
  {
    hide Sound, WholeHeads, Inv, Welcome, Delivery, PumpOnce, Resolve, Onward;
    var next, wire := Act(tok, lim, sys, a), sys.eaten + sys.buf;
    Empties(wire);
    match a
    case Arrive(bs) => ArriveHelps(tok, lim, sys, w, f, bs);
    case Pump(env) =>
      if sys.conn.phase.Parked? {
        ParkedPump(tok, lim, sys, env);
        assert Inv(tok, lim, next) && next == sys.(conn := next.conn);
        StillUnderway(tok, lim, sys, next, w, f);
      } else {
        PumpHelps(tok, lim, sys, w, f, env);
      }
    case Complete(env) => CompleteHelps(tok, lim, sys, w, f, env);
  }

  lemma {:induction false} ParkedPump(tok: Tokenizer, lim: Limits, sys: Sys, env: Env)
    requires sys.conn.phase.Parked?
    ensures PumpOnce(tok, lim, sys, env) == sys
  {
    hide Deliver, F.Frame;
  }

  // ----- a stream of requests

  ghost predicate AllWelcome(tok: Tokenizer, lim: Limits, ws: seq<bytes>, fs: seq<Facts>) {
    |fs| == |ws| && forall i :: 0 <= i < |ws| ==> Welcome(tok, lim, ws[i], fs[i])
  }

  /** These exchanges are the first of these requests, each served in full. */
  ghost predicate InOrder(tok: Tokenizer, lim: Limits, done: seq<Exchange>, ws: seq<bytes>, fs: seq<Facts>) {
    && |done| <= |ws| == |fs|
    && forall i :: 0 <= i < |done| ==> done[i].wire == ws[i] && Served(tok, lim, ws[i], done[i].log, fs[i])
  }

  /** Every action does its part in the state it meets. */
  predicate Helping(tok: Tokenizer, lim: Limits, sys: Sys, actions: seq<Action>)
    decreases |actions|
  {
    || actions == [] || !sys.open
    || (Helps(tok, lim, sys, actions[0]) && Helping(tok, lim, Act(tok, lim, sys, actions[0]), actions[1..]))
  }

  /** An action that also gets on with it: a park is resolved, and otherwise the pump is turned, and nothing parks. */
  predicate Presses(tok: Tokenizer, lim: Limits, sys: Sys, a: Action) {
    && Helps(tok, lim, sys, a)
    && var r := Delivery(tok, lim, sys, a);
       if sys.conn.phase.Parked? then a.Complete? && r.Some? && Prompt(a.env, r.value.calls)
       else a.Pump? && (r.None? || Prompt(a.env, r.value.calls))
  }

  predicate Pressing(tok: Tokenizer, lim: Limits, sys: Sys, actions: seq<Action>)
    decreases |actions|
  {
    || actions == [] || !sys.open
    || (Presses(tok, lim, sys, actions[0]) && Pressing(tok, lim, Act(tok, lim, sys, actions[0]), actions[1..]))
  }

  lemma {:induction false} FrontComparable(a: bytes, b: bytes, w: bytes, t: bytes)
    requires Comparable(a + b, w + t)
    ensures Comparable(a, w)
  {
    var s := if a + b <= w + t then w + t else a + b;
    assert a <= s && w <= s by {
      assert a == (a + b)[..|a|] && w == (w + t)[..|w|];
    }
    if |a| <= |w| {
      assert a == s[..|a|] == w[..|a|];
    } else {
      assert w == s[..|w|] == a[..|w|];
    }
  }

  lemma {:induction false} BackComparable(w: bytes, a: bytes, t: bytes)
    requires Comparable(w + a, w + t)
    ensures Comparable(a, t)
  {
    assert (w + a)[|w|..] == a && (w + t)[|w|..] == t;
    if w + a <= w + t {
      assert forall i :: 0 <= i < |a| ==> a[i] == (w + a)[|w| + i] == (w + t)[|w| + i] == t[i];
    } else {
      assert forall i :: 0 <= i < |t| ==> t[i] == (w + t)[|w| + i] == (w + a)[|w| + i] == a[i];
    }
  }

  /** What was answered stays answered. */
  lemma {:induction false} PastGrows(tok: Tokenizer, lim: Limits, sys: Sys, actions: seq<Action>)
    ensures sys.past <= Exec(tok, lim, sys, actions).past
    decreases |actions|
  {
    hide Act;
    if actions != [] {
      var next := Act(tok, lim, sys, actions[0]);
      assert sys.past <= next.past by { ActGrows(tok, lim, sys, actions[0]); }
      PastGrows(tok, lim, next, actions[1..]);
      var end := Exec(tok, lim, next, actions[1..]);
      assert sys.past == next.past[..|sys.past|] == end.past[..|next.past|][..|sys.past|];
    }
  }

  lemma {:induction false} ActGrows(tok: Tokenizer, lim: Limits, sys: Sys, a: Action)
    ensures sys.past <= Act(tok, lim, sys, a).past
  {
    hide Step, F.Frame, Events;
  }

  /** One action of a run, with what is left to arrive. */
  lemma {:induction false} RunStep(tok: Tokenizer, lim: Limits, sys: Sys, a: Action, later: bytes, w: bytes, t: bytes,
                                   f: Facts)
    requires Underway(tok, lim, sys, w, f) && Helps(tok, lim, sys, a)
    requires Comparable(sys.eaten + sys.buf + (Brings(a) + later), w + t)
    ensures var next, all := Act(tok, lim, sys, a), sys.eaten + sys.buf + (Brings(a) + later);
            || (Underway(tok, lim, next, w, f) && next.past == sys.past && next.eaten + next.buf + later == all)
            || (Answered(tok, lim, sys, next, w, f) && w + (next.eaten + next.buf + later) == all
                && Comparable(next.eaten + next.buf + later, t))
  {
    hide Underway, Answered, Helps, Act;
    var next, wire, bs := Act(tok, lim, sys, a), sys.eaten + sys.buf, Brings(a);
    AppendAppend(wire, bs, later);
    FrontComparable(wire + bs, later, w, t);
    HelpsOn(tok, lim, sys, w, f, a);
    AnsweredAfresh(tok, lim, sys, next, w, f);
    if next.past != sys.past {
      AppendAppend(w, next.buf, later);
      BackComparable(w, next.buf + later, t);
    }
  }

  lemma {:induction false} AnsweredAfresh(tok: Tokenizer, lim: Limits, sys: Sys, next: Sys, w: bytes, f: Facts)
    ensures Answered(tok, lim, sys, next, w, f) ==>
              next.eaten == [] && next.eaten + next.buf == next.buf && next.open && next.past != sys.past
  {
    hide Inv, Served;
    Empties(next.buf);
  }

  /**
    Between the two states these requests were answered, in order; and unless they are all of `ws`, the connection
    is open, the next one is under way, and no byte of `all` is lost.
  */
  ghost predicate Reached(tok: Tokenizer, lim: Limits, sys: Sys, end: Sys, all: bytes, done: seq<Exchange>,
                          ws: seq<bytes>, fs: seq<Facts>) {
    && InOrder(tok, lim, done, ws, fs) && sys.past + done <= end.past
    && (|done| < |ws| ==>
          && end.past == sys.past + done && Underway(tok, lim, end, ws[|done|], fs[|done|])
          && Flatten(ws[..|done|]) + (end.eaten + end.buf) == all)
  }

  lemma {:induction false} ReachedHere(tok: Tokenizer, lim: Limits, sys: Sys, ws: seq<bytes>, fs: seq<Facts>)
    requires |fs| == |ws| && ws != [] && Underway(tok, lim, sys, ws[0], fs[0])
    ensures Reached(tok, lim, sys, sys, sys.eaten + sys.buf, [], ws, fs)
  {
    hide Underway, Served;
    Empties(sys.past);
    Empties(sys.eaten + sys.buf);
    assert ws[..0] == [];
    assert Flatten<byte>([]) == [];
  }

  lemma {:induction false} ReachedNext(tok: Tokenizer, lim: Limits, sys: Sys, next: Sys, end: Sys, all: bytes,
                                       e: Exchange, done: seq<Exchange>, ws: seq<bytes>, fs: seq<Facts>)
    requires |fs| == |ws| && ws != [] && next.past == sys.past + [e]
    requires e.wire == ws[0] && Served(tok, lim, ws[0], e.log, fs[0])
    requires Reached(tok, lim, next, end, all, done, ws[1..], fs[1..])
    ensures Reached(tok, lim, sys, end, ws[0] + all, [e] + done, ws, fs)
  {
    hide Underway, Served;
    AppendAppend(sys.past, [e], done);
    OneMore(tok, lim, e, done, ws, fs);
    var k := |done|;
    if k + 1 < |ws| {
      assert ws[..k + 1][1..] == ws[1..][..k] && ws[..k + 1][0] == ws[0];
      AppendAppend(ws[0], Flatten(ws[1..][..k]), end.eaten + end.buf);
    }
  }

  /** The exchange an answer added. */
  lemma {:induction false} TheAnswer(tok: Tokenizer, lim: Limits, sys: Sys, next: Sys, w: bytes, f: Facts)
    returns (e: Exchange)
    requires Answered(tok, lim, sys, next, w, f)
    ensures next.past == sys.past + [e] && e.wire == w && Served(tok, lim, w, e.log, f)
  {
    hide Inv, Served;
    var log :| next.past == sys.past + [Exchange(w, log)] && Served(tok, lim, w, log, f);
    e := Exchange(w, log);
  }

  /** Behind an answer the next request is under way. */
  lemma {:induction false} NextUnderway(tok: Tokenizer, lim: Limits, sys: Sys, next: Sys, later: bytes, w: bytes,
                                        f: Facts, ws: seq<bytes>, fs: seq<Facts>)
    requires Sound(tok) && WholeHeads(tok) && Answered(tok, lim, sys, next, w, f)
    requires AllWelcome(tok, lim, ws, fs) && ws != [] && Comparable(next.eaten + next.buf + later, Flatten(ws))
    ensures Underway(tok, lim, next, ws[0], fs[0])
  {
    hide Inv, Served, Sound, WholeHeads, Welcome;
    FrontComparable(next.eaten + next.buf, later, ws[0], Flatten(ws[1..]));
  }

  lemma {:induction false} RestWelcome(tok: Tokenizer, lim: Limits, ws: seq<bytes>, fs: seq<Facts>)
    requires AllWelcome(tok, lim, ws, fs) && ws != []
    ensures AllWelcome(tok, lim, ws[1..], fs[1..])
  {
    hide Welcome;
  }

  /**
    From any state, through any actions that do their part: the welcome requests ahead are answered one behind
    the other, each served in full; and until the last of them is, the connection is open, the next one is
    under way, and no byte is lost.
  */
  lemma {:induction false} ServesAll(tok: Tokenizer, lim: Limits, sys: Sys, actions: seq<Action>, ws: seq<bytes>,
                                     fs: seq<Facts>) returns (done: seq<Exchange>)
    requires |fs| == |ws| && AllWelcome(tok, lim, ws, fs) && Helping(tok, lim, sys, actions)
    requires ws != [] ==> Underway(tok, lim, sys, ws[0], fs[0])
    requires Comparable(sys.eaten + sys.buf + Arrived(actions), Flatten(ws))
    ensures Reached(tok, lim, sys, Exec(tok, lim, sys, actions), sys.eaten + sys.buf + Arrived(actions), done, ws, fs)
    decreases |actions|
  {
    hide Underway, Act, Helps, Reached, AllWelcome, Comparable, Answered, Exec, Helping, Flatten, Arrived;
    if ws == [] {
      done := [];
      PastGrows(tok, lim, sys, actions);
      ReachedAll(tok, lim, sys, Exec(tok, lim, sys, actions), sys.eaten + sys.buf + Arrived(actions), fs);
    } else if actions == [] {
      done := [];
      NothingDone(tok, lim, sys);
      ReachedHere(tok, lim, sys, ws, fs);
    } else {
      UnderwayIsOpen(tok, lim, sys, ws[0], fs[0]);
      var next, rest := Act(tok, lim, sys, actions[0]), actions[1..];
      FirstAction(tok, lim, sys, actions);
      assert Flatten(ws) == ws[0] + Flatten(ws[1..]) by { FlattenFirst(ws); }
      RunStep(tok, lim, sys, actions[0], Arrived(rest), ws[0], Flatten(ws[1..]), fs[0]);
      AnsweredAfresh(tok, lim, sys, next, ws[0], fs[0]);
      if next.past == sys.past {
        done := ServesAll(tok, lim, next, rest, ws, fs);
        ReachedSame(tok, lim, sys, next, Exec(tok, lim, next, rest), next.eaten + next.buf + Arrived(rest), done, ws,
                    fs);
      } else {
        var e := TheAnswer(tok, lim, sys, next, ws[0], fs[0]);
        RestWelcome(tok, lim, ws, fs);
        if ws[1..] != [] {
          NextUnderway(tok, lim, sys, next, Arrived(rest), ws[0], fs[0], ws[1..], fs[1..]);
        }
        var more := ServesAll(tok, lim, next, rest, ws[1..], fs[1..]);
        done := [e] + more;
        ReachedNext(tok, lim, sys, next, Exec(tok, lim, next, rest), next.eaten + next.buf + Arrived(rest), e, more,
                    ws, fs);
      }
    }
  }

  lemma {:induction false} FlattenFirst(ws: seq<bytes>)
    requires ws != []
    ensures Flatten(ws) == ws[0] + Flatten(ws[1..])
  {
  }

  lemma {:induction false} NothingDone(tok: Tokenizer, lim: Limits, sys: Sys)
    ensures Exec(tok, lim, sys, []) == sys && sys.eaten + sys.buf + Arrived([]) == sys.eaten + sys.buf
  {
    Empties(sys.eaten + sys.buf);
  }

  lemma {:induction false} FirstAction(tok: Tokenizer, lim: Limits, sys: Sys, actions: seq<Action>)
    requires actions != [] && sys.open
    ensures Exec(tok, lim, sys, actions) == Exec(tok, lim, Act(tok, lim, sys, actions[0]), actions[1..])
    ensures Arrived(actions) == Brings(actions[0]) + Arrived(actions[1..])
    ensures Helping(tok, lim, sys, actions) ==>
              Helps(tok, lim, sys, actions[0]) && Helping(tok, lim, Act(tok, lim, sys, actions[0]), actions[1..])
    ensures Pressing(tok, lim, sys, actions) ==>
              Presses(tok, lim, sys, actions[0]) && Pressing(tok, lim, Act(tok, lim, sys, actions[0]), actions[1..])
  {
    hide Act, Helps, Presses;
  }

  lemma {:induction false} ReachedAll(tok: Tokenizer, lim: Limits, sys: Sys, end: Sys, all: bytes, fs: seq<Facts>)
    requires sys.past <= end.past && fs == []
    ensures Reached(tok, lim, sys, end, all, [], [], fs)
  {
    Empties(sys.past);
  }

  lemma {:induction false} ReachedSame(tok: Tokenizer, lim: Limits, sys: Sys, next: Sys, end: Sys, all: bytes,
                                       done: seq<Exchange>, ws: seq<bytes>, fs: seq<Facts>)
    requires next.past == sys.past && Reached(tok, lim, next, end, all, done, ws, fs)
    ensures Reached(tok, lim, sys, end, all, done, ws, fs)
  {
    hide Underway, InOrder;
  }

  lemma {:induction false} UnderwayIsOpen(tok: Tokenizer, lim: Limits, sys: Sys, w: bytes, f: Facts)
    requires Underway(tok, lim, sys, w, f)
    ensures sys.open && Sound(tok) && WholeHeads(tok) && Inv(tok, lim, sys) && |sys.eaten| <= |w|
  {
    hide Inv, Sound, WholeHeads, Welcome;
  }

  // ----- getting there

  /** Outside a park some of the request is still to be taken. */
  lemma {:induction false} RoomLeft(tok: Tokenizer, lim: Limits, sys: Sys, w: bytes, f: Facts)
    requires Underway(tok, lim, sys, w, f) && !sys.conn.phase.Parked? && w <= sys.eaten + sys.buf
    ensures |sys.eaten| < |w|
  {
    hide Sound, WholeHeads, Inv, Admissible, TrueView, Heard, PumpOnce;
    WelcomeIs(tok, lim, w, f);
    var env := Env(false, false, Continue, Continue, Redrive);
    var n, r := NeverRefusedEarly(tok, lim, sys, w, f, env);
    assert n > 0;
    HeardHow(tok, lim, sys, w, env, n, r);
  }

  function Stalls(sys: Sys): nat {
    if sys.conn.phase.Parked? then 1 else 0
  }

  /** One pressing action with all of the request there: a park is undone, bytes are taken, or it is answered. */
  lemma {:induction false} PressStep(tok: Tokenizer, lim: Limits, sys: Sys, a: Action, w: bytes, f: Facts)
    requires Underway(tok, lim, sys, w, f) && Presses(tok, lim, sys, a) && w <= sys.eaten + sys.buf
    ensures var next := Act(tok, lim, sys, a);
            || (Underway(tok, lim, next, w, f) && next.past == sys.past && next.eaten + next.buf == sys.eaten + sys.buf
                && !next.conn.phase.Parked? && |sys.eaten| < |next.eaten| + Stalls(sys))
            || (Answered(tok, lim, sys, next, w, f) && w + next.buf == sys.eaten + sys.buf)
    ensures |sys.eaten| < |w| + Stalls(sys)
  {
    hide Underway, Answered, Delivery, PumpOnce, Resolve, Prompt;
    UnderwayIsOpen(tok, lim, sys, w, f);
    hide Inv, Sound, WholeHeads;
    AnsweredAfresh(tok, lim, sys, Act(tok, lim, sys, a), w, f);
    if sys.conn.phase.Parked? {
      CompleteHelps(tok, lim, sys, w, f, a.env);
    } else {
      PumpHelps(tok, lim, sys, w, f, a.env);
      RoomLeft(tok, lim, sys, w, f);
    }
  }

  /** Once the requests have arrived, a pressing action for each byte left, and one for a park, serve them all. */
  lemma {:induction false} PressingServes(tok: Tokenizer, lim: Limits, sys: Sys, actions: seq<Action>, ws: seq<bytes>,
                                          fs: seq<Facts>) returns (done: seq<Exchange>)
    requires |fs| == |ws| && AllWelcome(tok, lim, ws, fs) && Pressing(tok, lim, sys, actions)
    requires ws != [] ==> Underway(tok, lim, sys, ws[0], fs[0]) && Flatten(ws) <= sys.eaten + sys.buf
    requires ws != [] ==> |Flatten(ws)| + Stalls(sys) <= |sys.eaten| + |actions|
    ensures |done| == |ws| && InOrder(tok, lim, done, ws, fs) && sys.past + done <= Exec(tok, lim, sys, actions).past
    decreases |actions|
  {
    hide Underway, Act, Presses, AllWelcome, InOrder, Answered, Exec, Pressing, Flatten, Stalls;
    if ws == [] {
      done := [];
      PastGrows(tok, lim, sys, actions);
      Empties(sys.past);
      NoneInOrder(tok, lim);
    } else {
      var w, t := ws[0], Flatten(ws[1..]);
      assert Flatten(ws) == w + t by { FlattenFirst(ws); }
      AllOf(w, t, sys.eaten + sys.buf);
      UnderwayIsOpen(tok, lim, sys, w, fs[0]);
      hide Inv, Sound, WholeHeads;
      SomeAction(tok, lim, sys, w, fs[0]);
      var next, rest := Act(tok, lim, sys, actions[0]), actions[1..];
      FirstAction(tok, lim, sys, actions);
      PressStep(tok, lim, sys, actions[0], w, fs[0]);
      AnsweredAfresh(tok, lim, sys, next, w, fs[0]);
      if next.past == sys.past {
        StallsIs(next);
        done := PressingServes(tok, lim, next, rest, ws, fs);
      } else {
        var e := TheAnswer(tok, lim, sys, next, w, fs[0]);
        RestWelcome(tok, lim, ws, fs);
        AnswerHolds(tok, lim, sys, next, w, t, fs[0]);
        if ws[1..] != [] {
          Empties(next.eaten + next.buf);
          NextUnderway(tok, lim, sys, next, [], w, fs[0], ws[1..], fs[1..]);
        }
        var more := PressingServes(tok, lim, next, rest, ws[1..], fs[1..]);
        done := [e] + more;
        OneMore(tok, lim, e, more, ws, fs);
        AppendAppend(sys.past, [e], more);
      }
    }
  }

  lemma {:induction false} AllOf(w: bytes, t: bytes, wire: bytes)
    ensures w + t <= wire ==> w <= wire && t <= wire[|w|..]
  {
    if w + t <= wire {
      assert w == (w + t)[..|w|] == wire[..|w|];
      assert t == (w + t)[|w|..] == wire[|w|..][..|t|];
    }
  }

  lemma {:induction false} NoneInOrder(tok: Tokenizer, lim: Limits)
    ensures InOrder(tok, lim, [], [], [])
  {
  }

  lemma {:induction false} StallsIs(sys: Sys)
    ensures Stalls(sys) == if sys.conn.phase.Parked? then 1 else 0
  {
  }

  /** With nothing parked, bytes are left to take. */
  lemma {:induction false} SomeAction(tok: Tokenizer, lim: Limits, sys: Sys, w: bytes, f: Facts)
    requires Underway(tok, lim, sys, w, f) && w <= sys.eaten + sys.buf
    ensures |sys.eaten| < |w| + Stalls(sys)
  {
    hide Sound, WholeHeads, Inv, Welcome;
    if !sys.conn.phase.Parked? {
      RoomLeft(tok, lim, sys, w, f);
    }
  }

  lemma {:induction false} AnswerHolds(tok: Tokenizer, lim: Limits, sys: Sys, next: Sys, w: bytes, t: bytes, f: Facts)
    requires Answered(tok, lim, sys, next, w, f) && w + next.buf == sys.eaten + sys.buf && w + t <= sys.eaten + sys.buf
    ensures Stalls(next) == 0 && t <= next.eaten + next.buf && Comparable(next.eaten + next.buf, t)
  {
    hide Inv, Served;
    AllOf(w, t, w + next.buf);
    Halves(w, next.buf);
    Empties(next.buf);
  }

  lemma {:induction false} OneMore(tok: Tokenizer, lim: Limits, e: Exchange, done: seq<Exchange>, ws: seq<bytes>,
                                   fs: seq<Facts>)
    requires |fs| == |ws| && ws != [] && e.wire == ws[0] && Served(tok, lim, ws[0], e.log, fs[0])
    requires InOrder(tok, lim, done, ws[1..], fs[1..])
    ensures InOrder(tok, lim, [e] + done, ws, fs)
  {
    hide Served;
    forall i | 0 <= i < |done| + 1
      ensures ([e] + done)[i].wire == ws[i] && Served(tok, lim, ws[i], ([e] + done)[i].log, fs[i])
    {
      if i > 0 {
        assert ([e] + done)[i] == done[i - 1] && ws[1..][i - 1] == ws[i] && fs[1..][i - 1] == fs[i];
      }
    }
  }

  /** The next call completes the request. */
  predicate Completes(phase: Phase) {
    phase.AtHead? || phase.ExpectBody? || phase.ScanDone? || phase.StreamDone?
  }

  const YES: Choice := Respond(false, false)

  /** A handler that reads on until the call that completes the request, and answers that one. */
  lemma {:induction false} StepStages(tok: Tokenizer, was: Conn, header: bytes, body: bytes, env: Env)
    requires !was.phase.Parked? && env.second == YES && env.first == if Completes(was.phase) then YES else Continue
    ensures var r := Step(tok, was, header, body, env); Willing(env, r.calls) && Prompt(env, r.calls)
  {
    hide HeadView, F.MethodIsHead, Negotiate;
  }

  /** A worker that answers what is complete, and otherwise lets the stream go on. */
  lemma {:induction false} ParkStages(tok: Tokenizer, was: Conn, env: Env)
    requires was.phase.Parked? && (was.phase.resume.Some? ==> !IsFinal(was.phase.req.stage))
    requires env.second == YES
    requires match was.phase.resume
             case None => env.outcome == Outcome.Answered(false, false)
             case Some(park) =>
               if was.phase.req.kind == Streaming
               then env.outcome == Resume && env.first == YES
               else env.outcome == Redrive && env.first == Continue
    ensures var r := Step(tok, was, [], [], env);
            Willing(env, r.calls) && Prompt(env, r.calls) && WorkerCooperates(env.outcome, was.phase.resume)
  {
    hide HeadView, F.MethodIsHead, Negotiate;
  }

  lemma {:induction false} ParkStage(tok: Tokenizer, lim: Limits, sys: Sys)
    requires Inv(tok, lim, sys) && sys.open && sys.conn.phase.Parked? && sys.conn.phase.resume.Some?
    ensures !IsFinal(sys.conn.phase.req.stage)
  {
    hide Legal, PastOk, Traced, Over, CallsRead, TrueView, Measured, Served, HasHead, LastCall, StreamAt, OwesEnd,
         Interims;
  }

  /** In every state on the way of a welcome request there is an action that presses on. */
  lemma {:induction false} CanPress(tok: Tokenizer, lim: Limits, sys: Sys, w: bytes, f: Facts) returns (a: Action)
    requires Underway(tok, lim, sys, w, f)
    ensures Presses(tok, lim, sys, a)
  {
    hide Inv, Sound, WholeHeads, Welcome, Step, F.Frame, Willing, Prompt;
    var phase := sys.conn.phase;
    if phase.Parked? {
      var streaming := phase.req.kind == Streaming;
      var env := match phase.resume
        case None => Env(false, false, Continue, YES, Outcome.Answered(false, false))
        case Some(_) => if streaming then Env(false, false, YES, YES, Resume)
                        else Env(false, false, Continue, YES, Redrive);
      if phase.resume.Some? {
        ParkStage(tok, lim, sys);
      }
      ParkStages(tok, sys.conn, env);
      a := Action.Complete(env);
    } else {
      var framed := F.Frame(tok, sys.conn, sys.buf, lim.cfg);
      var env := Env(false, false, if Completes(framed.conn.phase) then YES else Continue, YES, Redrive);
      a := Pump(env);
      NeverParks(tok, sys.conn, sys.buf, lim.cfg);
      if Delivery(tok, lim, sys, a).Some? {
        var h, b := framed.framing.headerLen, framed.framing.bodyLen;
        StepStages(tok, framed.conn, sys.buf[..h], sys.buf[h..h + b], env);
      }
    }
  }

  /**
    From a fresh connection, for every stream of welcome requests, every cutting of it and of whatever follows into
    arrivals, and every interleaving with pumps, parks, resumptions, redrives and answers that do their part:
    the requests are answered in order, each served in full; until the last of them is, the connection is open,
    owes an answer, and has lost no byte; and once they have all arrived, as many pressing actions as they have
    bytes, and one more, have answered them all.
  */
  lemma {:induction false} PipelinedRequests(tok: Tokenizer, lim: Limits, actions: seq<Action>, more: seq<Action>,
                                             ws: seq<bytes>, fs: seq<Facts>, following: bytes)
    requires Sound(tok) && WholeHeads(tok) && AllWelcome(tok, lim, ws, fs)
    requires Helping(tok, lim, Start(lim), actions) && Arrived(actions) <= Flatten(ws) + following
    ensures var sys := Exec(tok, lim, Start(lim), actions);
            var k := Min(|sys.past|, |ws|);
            && InOrder(tok, lim, sys.past[..k], ws, fs)
            && (k < |ws| ==>
                  && sys.open && !Over(sys.log) && Flatten(ws[..k]) + (sys.eaten + sys.buf) == Arrived(actions))
    ensures var sys, end := Exec(tok, lim, Start(lim), actions), Exec(tok, lim, Start(lim), actions + more);
            Flatten(ws) <= Arrived(actions) && Pressing(tok, lim, sys, more) && |Flatten(ws)| < |more| ==>
              |ws| <= |end.past| && InOrder(tok, lim, end.past[..|ws|], ws, fs)
  {
    hide Sound, WholeHeads, AllWelcome, Helping, Pressing, Exec, InOrder, Flatten, Arrived, Reached, Over, Inv;
    var start := Start(lim);
    var sys := Exec(tok, lim, start, actions);
    StartsUnderway(tok, lim, Arrived(actions), ws, fs, following);
    var done := ServesAll(tok, lim, start, actions, ws, fs);
    ReachedMeans(tok, lim, sys, Arrived(actions), done, ws, fs);
    ExecThen(tok, lim, start, actions, more);
    if Flatten(ws) <= Arrived(actions) && Pressing(tok, lim, sys, more) && |Flatten(ws)| < |more| {
      PressedThrough(tok, lim, sys, more, done, Arrived(actions), ws, fs);
    }
  }

  lemma {:induction false} StartsUnderway(tok: Tokenizer, lim: Limits, all: bytes, ws: seq<bytes>, fs: seq<Facts>,
                                          following: bytes)
    requires Sound(tok) && WholeHeads(tok) && AllWelcome(tok, lim, ws, fs) && all <= Flatten(ws) + following
    ensures |fs| == |ws| && Start(lim).past == []
    ensures ws != [] ==> Underway(tok, lim, Start(lim), ws[0], fs[0])
    ensures Start(lim).eaten + Start(lim).buf + all == all && Comparable(all, Flatten(ws))
  {
    hide Sound, WholeHeads, Inv, Welcome, Flatten;
    StartHolds(tok, lim);
    Prefixes(all, Flatten(ws), following);
    Empties(all);
    assert Start(lim).eaten + Start(lim).buf == [];
  }

  lemma {:induction false} ReachedMeans(tok: Tokenizer, lim: Limits, end: Sys, all: bytes, done: seq<Exchange>,
                                        ws: seq<bytes>, fs: seq<Facts>)
    requires Reached(tok, lim, Start(lim), end, all, done, ws, fs)
    ensures var k := Min(|end.past|, |ws|);
            && k == |done| && end.past[..k] == done && InOrder(tok, lim, end.past[..k], ws, fs)
            && (k < |ws| ==>
                  && end.open && !Over(end.log) && Flatten(ws[..k]) + (end.eaten + end.buf) == all
                  && end.past == done && Underway(tok, lim, end, ws[k], fs[k]))
  {
    hide Legal, Traced, Waiting, PastOk, Over, Sound, WholeHeads, Welcome, Served, Flatten;
    Empties(done);
    assert Start(lim).past + done == done;
  }

  lemma {:induction false} FlattenSplit(ws: seq<bytes>, k: nat)
    requires k <= |ws|
    ensures Flatten(ws) == Flatten(ws[..k]) + Flatten(ws[k..])
    decreases k
  {
    if k == 0 {
      assert ws[..0] == [] && ws[0..] == ws;
      Empties(Flatten(ws));
    } else {
      FlattenSplit(ws[1..], k - 1);
      assert ws[1..][..k - 1] == ws[..k][1..] && ws[1..][k - 1..] == ws[k..];
      AppendAppend(ws[0], Flatten(ws[1..][..k - 1]), Flatten(ws[k..]));
    }
  }

  lemma {:induction false} LaterWelcome(tok: Tokenizer, lim: Limits, ws: seq<bytes>, fs: seq<Facts>, k: nat)
    requires AllWelcome(tok, lim, ws, fs) && k <= |ws|
    ensures |fs| == |ws| && AllWelcome(tok, lim, ws[k..], fs[k..])
  {
    hide Welcome;
  }

  lemma {:induction false} OrderJoins(tok: Tokenizer, lim: Limits, a: seq<Exchange>, b: seq<Exchange>, ws: seq<bytes>,
                                      fs: seq<Facts>)
    requires InOrder(tok, lim, a, ws, fs) && InOrder(tok, lim, b, ws[|a|..], fs[|a|..])
    ensures InOrder(tok, lim, a + b, ws, fs)
  {
    hide Served;
    forall i | 0 <= i < |a + b|
      ensures (a + b)[i].wire == ws[i] && Served(tok, lim, ws[i], (a + b)[i].log, fs[i])
    {
      if i >= |a| {
        assert (a + b)[i] == b[i - |a|] && ws[|a|..][i - |a|] == ws[i] && fs[|a|..][i - |a|] == fs[i];
      }
    }
  }

  lemma {:induction false} InOrderFits(tok: Tokenizer, lim: Limits, done: seq<Exchange>, ws: seq<bytes>, fs: seq<Facts>)
    requires InOrder(tok, lim, done, ws, fs)
    ensures |done| <= |ws| == |fs|
  {
    hide Served;
  }

  /** From where a run has got, pressing on serves the rest. */
  lemma {:induction false} PressedThrough(tok: Tokenizer, lim: Limits, sys: Sys, more: seq<Action>, done: seq<Exchange>,
                                          all: bytes, ws: seq<bytes>, fs: seq<Facts>)
    requires AllWelcome(tok, lim, ws, fs) && Flatten(ws) <= all
    requires Pressing(tok, lim, sys, more) && |Flatten(ws)| < |more|
    requires InOrder(tok, lim, done, ws, fs) && done <= sys.past
    requires |done| < |ws| ==>
               && sys.past == done && |done| < |fs| && Underway(tok, lim, sys, ws[|done|], fs[|done|])
               && Flatten(ws[..|done|]) + (sys.eaten + sys.buf) == all
    ensures var end := Exec(tok, lim, sys, more);
            |ws| <= |end.past| && InOrder(tok, lim, end.past[..|ws|], ws, fs)
  {
    hide AllWelcome, Pressing, Exec, InOrder, Flatten, Underway;
    var end, k := Exec(tok, lim, sys, more), |done|;
    InOrderFits(tok, lim, done, ws, fs);
    if k < |ws| {
      FlattenSplit(ws, k);
      LaterWelcome(tok, lim, ws, fs, k);
      Rest(Flatten(ws[..k]), Flatten(ws[k..]), sys.eaten + sys.buf);
      StallsIs(sys);
      var last := PressingServes(tok, lim, sys, more, ws[k..], fs[k..]);
      OrderJoins(tok, lim, done, last, ws, fs);
      assert end.past[..|ws|] == done + last;
    } else {
      PastGrows(tok, lim, sys, more);
      assert end.past[..|ws|] == sys.past[..|ws|] == done;
    }
  }

  lemma {:induction false} Rest(a: bytes, b: bytes, c: bytes)
    requires a + b <= a + c
    ensures b <= c
  {
    Halves(a, c);
    AllOf(a, b, a + c);
  }
}
