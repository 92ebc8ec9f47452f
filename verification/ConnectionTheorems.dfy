/** What the invariant means for a client, a handler and an operator, over every run. */
module ConnectionTheorems {
  import opened Bytes
  import opened HttpTypes
  import opened Glue
  import opened Connection
  import opened ConnectionInvariant
  import opened ConnectionSafety
  import F = Framer
  import C = Chunked
  import R = ChunkedReaders

  // ----- no byte is lost, repeated or reordered

  function Arrived(actions: seq<Action>): bytes
    decreases |actions|
  {
    if actions == [] then []
    else (if actions[0].Arrive? then actions[0].bs else []) + Arrived(actions[1..])
  }

  function Wires(past: seq<Exchange>): bytes {
    if past == [] then [] else past[0].wire + Wires(past[1..])
  }

  lemma {:induction false} WiresPush(past: seq<Exchange>, e: Exchange)
    ensures Wires(past + [e]) == Wires(past) + e.wire
    decreases |past|
  {
    if past == [] {
      assert ([] + [e])[1..] == [];
    } else {
      assert (past + [e])[1..] == past[1..] + [e];
      WiresPush(past[1..], e);
      AppendAppend(past[0].wire, Wires(past[1..]), e.wire);
    }
  }

  /** Every byte the connection still accounts for: answered, delivered, or buffered. */
  function Accounted(sys: Sys): bytes {
    Wires(sys.past) + (sys.eaten + sys.buf)
  }

  lemma {:induction false} RecordAccounts(sys: Sys, n: nat, r: Result)
    requires n <= |sys.buf|
    ensures Accounted(Record(sys, n, r)) == Accounted(sys)
  {
    hide Events, Wires;
    var eaten, buf := sys.eaten + sys.buf[..n], sys.buf[n..];
    AppendAppend(sys.eaten, sys.buf[..n], buf);
    assert sys.buf[..n] + buf == sys.buf;
    if KeepsOpen(r.resp) {
      var e := Exchange(eaten, sys.log + Events(r.calls) + [Sent(r.resp)]);
      WiresPush(sys.past, e);
      Empties(buf);
      AppendAppend(Wires(sys.past), eaten, buf);
    }
  }

  lemma {:induction false} ActAccounts(tok: Tokenizer, lim: Limits, sys: Sys, a: Action)
    ensures Accounted(Act(tok, lim, sys, a)) == Accounted(sys) + if sys.open && a.Arrive? then a.bs else []
    ensures Act(tok, lim, sys, a).open ==> sys.open
  {
    hide Step, Record, F.Frame, Wires;
    Empties(Accounted(sys));
    if sys.open {
      match a
      case Arrive(bs) =>
        AppendAppend(sys.eaten, sys.buf, bs);
        AppendAppend(Wires(sys.past), sys.eaten + sys.buf, bs);
      case Pump(env) =>
        var f := F.Frame(tok, sys.conn, sys.buf, lim.cfg);
        if !sys.conn.phase.Parked? && f.framing.Complete? {
          var h, b := f.framing.headerLen, f.framing.bodyLen;
          if h + b <= |sys.buf| {
            RecordAccounts(sys, h + b, Step(tok, f.conn, sys.buf[..h], sys.buf[h..h + b], env));
          }
        }
      case Complete(env) => RecordAccounts(sys, 0, Step(tok, sys.conn, [], [], env));
      case Abandon =>
    }
  }

  /** The answered requests, the one in progress and the buffer are always the bytes that arrived, in order. */
  lemma {:induction false} BytesConserved(tok: Tokenizer, lim: Limits, sys: Sys, actions: seq<Action>)
    ensures var end := Exec(tok, lim, sys, actions);
            && Accounted(end) <= Accounted(sys) + Arrived(actions)
            && (end.open ==> sys.open && Accounted(end) == Accounted(sys) + Arrived(actions))
    decreases |actions|
  {
    hide Act, Accounted;
    if actions == [] {
      Empties(Accounted(sys));
    } else {
      var a := actions[0];
      var next := Act(tok, lim, sys, a);
      ActAccounts(tok, lim, sys, a);
      BytesConserved(tok, lim, next, actions[1..]);
      if sys.open {
        AppendAppend(Accounted(sys), if a.Arrive? then a.bs else [], Arrived(actions[1..]));
      } else {
        Closed(tok, lim, sys, actions);
      }
    }
  }

  lemma {:induction false} Closed(tok: Tokenizer, lim: Limits, sys: Sys, actions: seq<Action>)
    requires !sys.open
    ensures Exec(tok, lim, sys, actions) == sys
    decreases |actions|
  {
    hide Step, Record, F.Frame;
    if actions != [] {
      Closed(tok, lim, sys, actions[1..]);
    }
  }

  // ----- where a request ends does not depend on how it came in or what the handlers said

  /** Two requests at the front of the same bytes are the same request. */
  lemma {:induction false} RequestsArePrefixFree(tok: Tokenizer, lim: Limits, s: bytes, u: bytes, v: bytes, f: Facts,
                                                 g: Facts)
    requires Sound(tok) && u <= s && v <= s && IsRequest(tok, lim, u, f) && IsRequest(tok, lim, v, g)
    ensures u == v && f == g
  {
    hide R.Decode, C.Run;
    assert s == u + s[|u|..] && s == v + s[|v|..];
    assert tok.parse(u + s[|u|..]) == tok.parse(u);
    assert tok.parse(v + s[|v|..]) == tok.parse(v);
    if f.body.kind == ChunkFramed {
      var body := s[f.len..];
      DropAppend(u, s[|u|..], f.len);
      DropAppend(v, s[|v|..], f.len);
      ExtentOf(u[f.len..], s[|u|..]);
      ExtentOf(v[f.len..], s[|v|..]);
    }
  }

  lemma {:induction false} ExtentOf(body: bytes, rest: bytes)
    requires R.Decode(body).Some?
    ensures C.Run(body + rest, C.INIT).used == |body|
  {
    R.DecodeIsRun(body);
    C.RunExtends(body, rest, C.INIT);
  }

  lemma {:induction false} SplitsAgree(tok: Tokenizer, lim: Limits, p: seq<Exchange>, q: seq<Exchange>, s: bytes)
    requires Sound(tok) && PastOk(tok, lim, p) && PastOk(tok, lim, q) && Wires(p) <= s && Wires(q) <= s
    ensures forall i :: 0 <= i < |p| && i < |q| ==> p[i].wire == q[i].wire
    decreases |p|
  {
    hide Served, IsRequest, Sound;
    if p != [] && q != [] {
      var u, v := p[0].wire, q[0].wire;
      var f :| Served(tok, lim, u, p[0].log, f);
      var g :| Served(tok, lim, v, q[0].log, g);
      ServedIsRequest(tok, lim, u, p[0].log, f);
      ServedIsRequest(tok, lim, v, q[0].log, g);
      FirstOf(p, s);
      FirstOf(q, s);
      RequestsArePrefixFree(tok, lim, s, u, v, f, g);
      var p', q' := p[1..], q[1..];
      SplitsAgree(tok, lim, p', q', s[|u|..]);
      forall i | 0 <= i < |p| && i < |q|
        ensures p[i].wire == q[i].wire
      {
        if i > 0 {
          assert p'[i - 1].wire == q'[i - 1].wire;
        }
      }
    }
  }

  lemma {:induction false} FirstOf(p: seq<Exchange>, s: bytes)
    requires p != [] && Wires(p) <= s
    ensures p[0].wire <= s && Wires(p[1..]) <= s[|p[0].wire|..]
  {
    var u := p[0].wire;
    var n := |Wires(p)|;
    assert s[..n] == u + Wires(p[1..]);
    assert s[..|u|] == s[..n][..|u|];
    assert s[|u|..][..n - |u|] == s[..n][|u|..];
  }

  lemma {:induction false} ServedIsRequest(tok: Tokenizer, lim: Limits, wire: bytes, log: seq<Event>, f: Facts)
    requires Served(tok, lim, wire, log, f)
    ensures IsRequest(tok, lim, wire, f)
  {
    hide IsRequest, Legal, LastCall, Windows, Interims;
  }

  /**
    Request boundaries are a function of the byte stream alone: however two connections
    receive prefixes of the same bytes, and whatever their handlers, workers and drains do,
    the requests they answer are the same requests.
  */
  lemma {:induction false} BoundariesAreOfTheStream(tok: Tokenizer, lim: Limits, s: bytes, one: seq<Action>,
                                                    two: seq<Action>)
    requires Sound(tok) && Arrived(one) <= s && Arrived(two) <= s
    ensures var p, q := Exec(tok, lim, Start(lim), one).past, Exec(tok, lim, Start(lim), two).past;
            forall i :: 0 <= i < |p| && i < |q| ==> p[i].wire == q[i].wire
  {
    hide Exec, Inv;
    AnsweredPrefix(tok, lim, one, s);
    AnsweredPrefix(tok, lim, two, s);
    SplitsAgree(tok, lim, Exec(tok, lim, Start(lim), one).past, Exec(tok, lim, Start(lim), two).past, s);
  }

  lemma {:induction false} AnsweredPrefix(tok: Tokenizer, lim: Limits, actions: seq<Action>, s: bytes)
    requires Sound(tok) && Arrived(actions) <= s
    ensures var past := Exec(tok, lim, Start(lim), actions).past; PastOk(tok, lim, past) && Wires(past) <= s
  {
    EveryRun(tok, lim, actions);
    BytesConserved(tok, lim, Start(lim), actions);
    hide Exec, PastOk, Legal, Traced, Waiting;
    var end := Exec(tok, lim, Start(lim), actions);
    assert Accounted(Start(lim)) == [];
    Empties(Arrived(actions));
    assert Wires(end.past) <= Accounted(end);
    PrefixOfPrefix(Wires(end.past), Accounted(end), s);
  }

  lemma {:induction false} PrefixOfPrefix(a: bytes, b: bytes, c: bytes)
    requires a <= b <= c
    ensures a <= c
  {
  }

  // ----- what a legal log says of every event in it

  lemma {:induction false} LegalPrefix(log: seq<Event>, n: nat)
    requires Legal(log) && n <= |log|
    ensures Legal(log[..n])
    decreases |log|
  {
    if n < |log| {
      var front := log[..|log| - 1];
      LegalPrefix(front, n);
      assert front[..n] == log[..n];
    } else {
      assert log[..n] == log;
    }
  }

  /** The event at `i`, and what it was allowed to follow. */
  lemma {:induction false} LegalAt(log: seq<Event>, i: nat)
    requires Legal(log) && i < |log|
    ensures Legal(log[..i]) && !Over(log[..i])
    ensures match log[i]
            case Called(call) => CallOk(log[..i], call)
            case Sent(resp) => RespOk(log[..i], resp)
  {
    LegalPrefix(log, i + 1);
    var l := log[..i + 1];
    assert l[..|l| - 1] == log[..i];
  }

  lemma {:induction false} LastCallIs(log: seq<Event>, i: nat, j: nat)
    requires i < j <= |log| && log[i].Called? && forall k :: i < k < j ==> log[k].Sent?
    ensures LastCall(log[..j]) == Some(log[i].call)
    decreases j
  {
    var l := log[..j];
    if j > i + 1 {
      LastCallIs(log, i, j - 1);
      assert l[..|l| - 1] == log[..j - 1];
    }
  }

  lemma {:induction false} LastCallAt(log: seq<Event>) returns (i: nat)
    requires LastCall(log).Some?
    ensures i < |log| && log[i] == Called(LastCall(log).value) && forall k :: i < k < |log| ==> log[k].Sent?
    decreases |log|
  {
    if log[|log| - 1].Called? {
      i := |log| - 1;
    } else {
      i := LastCallAt(log[..|log| - 1]);
    }
  }

  /** Nothing follows an answer. */
  lemma {:induction false} NothingAfterTheAnswer(log: seq<Event>, i: nat)
    requires Legal(log) && i + 1 < |log|
    ensures !Over(log[..i + 1])
  {
    LegalAt(log, i + 1);
  }

  /**
    The stages of one request, over its whole log: everything before a call that is not a
    redrive opened the stream or was a window of it, so a Whole stands alone, an End is last and an Open is first.
  */
  lemma {:induction false} StagesInOrder(log: seq<Event>, i: nat, j: nat)
    requires Legal(log) && i < j < |log| && log[i].Called? && log[j].Called? && !log[j].call.redriven
    ensures NextStage(log[i].call.stage, log[j].call.stage)
    ensures log[i].call.head == log[j].call.head && log[i].call.view == log[j].call.view
    decreases j
  {
    hide Legal;
    LegalAt(log, j);
    var k := LastBefore(log, i, j);
    if k > i {
      if log[k].call.redriven {
        RedriveRepeats(log, k, i);
      } else {
        StagesInOrder(log, i, k);
      }
    }
  }

  /** The last call before `j`. */
  lemma {:induction false} LastBefore(log: seq<Event>, i: nat, j: nat) returns (k: nat)
    requires i < j <= |log| && log[i].Called?
    ensures i <= k < j && log[k].Called? && LastCall(log[..j]) == Some(log[k].call)
    decreases j - i
  {
    if n: nat :| i < n < j && log[n].Called? {
      k := LastBefore(log, n, j);
    } else {
      k := i;
      LastCallIs(log, i, j);
    }
  }

  /** A redrive repeats a call of the same request exactly; what came before that call stays before it. */
  lemma {:induction false} RedriveRepeats(log: seq<Event>, j: nat, i: nat)
    requires Legal(log) && i < j < |log| && log[i].Called? && log[j].Called? && log[j].call.redriven
    ensures log[i].call.stage == log[j].call.stage || NextStage(log[i].call.stage, log[j].call.stage)
    ensures log[i].call.head == log[j].call.head && log[i].call.view == log[j].call.view
    ensures exists k :: i <= k < j && log[k].Called? && log[j].call == log[k].call.(redriven := true)
    decreases j
  {
    hide Legal;
    LegalAt(log, j);
    var k := LastBefore(log, i, j);
    if k > i {
      if log[k].call.redriven {
        RedriveRepeats(log, k, i);
      } else {
        StagesInOrder(log, i, k);
      }
    }
  }

  /** At most one interim, and only before anything of the body is shown. */
  lemma {:induction false} InterimOnce(log: seq<Event>)
    requires Legal(log)
    ensures Interims(log) <= 1
    decreases |log|
  {
    if log != [] {
      InterimOnce(log[..|log| - 1]);
    }
  }

  lemma {:induction false} InterimComesFirst(log: seq<Event>, i: nat, j: nat)
    requires Legal(log) && j < i < |log| && log[i] == Sent(Reply(Interim)) && log[j].Called?
    ensures log[j].call.stage == Open
  {
    hide Legal;
    LegalAt(log, i);
    var k := LastBefore(log, j, i);
    if k > j {
      if log[k].call.redriven {
        RedriveRepeats(log, k, j);
      } else {
        StagesInOrder(log, j, k);
      }
    }
  }

  /** No farewell owns up to a codec bug. */
  lemma {:induction false} NoBugAnswered(log: seq<Event>, i: nat, headOnly: bool)
    requires Legal(log) && i < |log|
    ensures log[i] != Sent(SayFarewell(BUG, headOnly))
  {
    hide Legal;
    LegalAt(log, i);
  }

  /** Every call of a log was given the head, and the view of it, that the last one was. */
  lemma {:induction false} CallsAgree(log: seq<Event>, i: nat)
    requires Legal(log) && i < |log| && log[i].Called?
    ensures LastCall(log).Some?
    ensures log[i].call.head == LastCall(log).value.head && log[i].call.view == LastCall(log).value.view
  {
    hide Legal;
    var k := LastBefore(log, i, |log|);
    assert log[..|log|] == log;
    if k > i {
      if log[k].call.redriven {
        RedriveRepeats(log, k, i);
      } else {
        StagesInOrder(log, i, k);
      }
    }
  }

  /** Whose bytes a log is about, and the log itself: an answered request, or the current one. */
  ghost predicate Recorded(sys: Sys, wire: bytes, log: seq<Event>) {
    (wire == sys.eaten + sys.buf && log == sys.log)
    || exists i :: 0 <= i < |sys.past| && sys.past[i] == Exchange(wire, log)
  }

  /**
    Over every run, at every dispatch, of whole requests, stream stages and redrives alike: the handler
    was given the head of the request it is serving, viewed as that head tokenizes.
  */
  lemma {:induction false} EveryDispatchReadsItsHead(tok: Tokenizer, lim: Limits, actions: seq<Action>, wire: bytes,
                                                     log: seq<Event>, i: nat)
    requires Sound(tok) && Recorded(Exec(tok, lim, Start(lim), actions), wire, log) && i < |log| && log[i].Called?
    ensures exists f ::
              HasHead(tok, lim, wire, f) && log[i].call.head == wire[..f.len] && log[i].call.view == TrueView(wire, f)
  {
    hide Exec, Legal, Sound, LastCall, TrueView, Measured, Windows, Interims, Content, Given;
    EveryRun(tok, lim, actions);
    RecordedLegal(tok, lim, Exec(tok, lim, Start(lim), actions), wire, log);
    CallsAgree(log, i);
    var f :| HasHead(tok, lim, wire, f) && CallsRead(log, wire[..f.len], TrueView(wire, f));
    assert HasHead(tok, lim, wire, f) && log[i].call.head == wire[..f.len] && log[i].call.view == TrueView(wire, f);
  }

  lemma {:induction false} RecordedLegal(tok: Tokenizer, lim: Limits, sys: Sys, wire: bytes, log: seq<Event>)
    requires Inv(tok, lim, sys) && Recorded(sys, wire, log)
    ensures Legal(log)
    ensures LastCall(log).Some? ==>
              exists f ::
                HasHead(tok, lim, wire, f) && CallsRead(log, wire[..f.len], TrueView(wire, f))
                && Given(tok, lim, wire, log, f)
    ensures Measured(lim, log)
  {
    hide Legal, LastCall, TrueView, Windows, Interims, Content, Waiting, Measured, IsBody, Given;
    if i :| 0 <= i < |sys.past| && sys.past[i] == Exchange(wire, log) {
      assert ServedExchange(tok, lim, sys.past[i]);
      var f :| Served(tok, lim, wire, log, f);
      assert HasHead(tok, lim, wire, f) && CallsRead(log, wire[..f.len], TrueView(wire, f));
      ServedGiven(tok, lim, wire, wire, log, f);
    }
  }

  /**
    Over every run and for every request, whether or not the connection outlives it: a handler told the
    request is complete was given all of its content, and one told of windows a prefix of its payload,
    none of it before the interim the client waits for.
  */
  lemma {:induction false} HandlersSeeTheRequest(tok: Tokenizer, lim: Limits, actions: seq<Action>, wire: bytes,
                                                 log: seq<Event>)
    requires Sound(tok) && Recorded(Exec(tok, lim, Start(lim), actions), wire, log) && LastCall(log).Some?
    ensures exists f :: HasHead(tok, lim, wire, f) && Given(tok, lim, wire, log, f)
  {
    hide Exec, Legal, Sound, LastCall, TrueView, Measured, Windows, Interims, Content, Given, CallsRead;
    EveryRun(tok, lim, actions);
    RecordedLegal(tok, lim, Exec(tok, lim, Start(lim), actions), wire, log);
  }

  /** Over every run, no answer owns up to a codec bug, and nothing past the limits reaches a handler. */
  lemma {:induction false} EveryLogIsLegal(tok: Tokenizer, lim: Limits, actions: seq<Action>, wire: bytes,
                                           log: seq<Event>)
    requires Sound(tok) && Recorded(Exec(tok, lim, Start(lim), actions), wire, log)
    ensures Legal(log) && Interims(log) <= 1 && Measured(lim, log)
    ensures forall i, headOnly :: 0 <= i < |log| ==> log[i] != Sent(SayFarewell(BUG, headOnly))
  {
    hide Exec, Legal, Sound, Measured, Interims;
    EveryRun(tok, lim, actions);
    RecordedLegal(tok, lim, Exec(tok, lim, Start(lim), actions), wire, log);
    InterimOnce(log);
    forall i, headOnly | 0 <= i < |log|
      ensures log[i] != Sent(SayFarewell(BUG, headOnly))
    {
      NoBugAnswered(log, i, headOnly);
    }
  }

  /** A request answered on an open connection was handed over in full, and its interim went out exactly when due. */
  lemma {:induction false} AnsweredMeansServed(tok: Tokenizer, lim: Limits, actions: seq<Action>, i: nat)
    requires Sound(tok) && i < |Exec(tok, lim, Start(lim), actions).past|
    ensures var e := Exec(tok, lim, Start(lim), actions).past[i];
            Over(e.log) && exists f :: Served(tok, lim, e.wire, e.log, f)
  {
    hide Exec, Legal, Sound, Traced, Waiting, Served;
    EveryRun(tok, lim, actions);
    var e := Exec(tok, lim, Start(lim), actions).past[i];
    assert ServedExchange(tok, lim, e);
  }

  /**
    A stream being read has sent the interim its client waits for, and a parked Open that still
    owes it has not: it goes out when the Open is accepted, inline, by a resume or by a redrive.
  */
  lemma {:induction false} InterimWhenAccepted(tok: Tokenizer, lim: Limits, actions: seq<Action>)
    requires Sound(tok)
    ensures var sys := Exec(tok, lim, Start(lim), actions);
            && (sys.open && (sys.conn.phase.StreamKnown? || sys.conn.phase.StreamBody?) ==>
                  exists f :: HasHead(tok, lim, sys.eaten + sys.buf, f) && Interims(sys.log) == Due(f))
            && (sys.open && sys.conn.phase.Parked? && sys.conn.phase.resume.Some?
                && sys.conn.phase.resume.value.expectInterim ==>
                  Interims(sys.log) == 0 && LastCall(sys.log).Some? && LastCall(sys.log).value.stage == Open)
  {
    hide Exec, Legal, Sound, Traced, Served, LastCall, Interims, StreamAt, OwesEnd, PastOk;
    EveryRun(tok, lim, actions);
  }
}
