/**
  The fourth reader of a chunked body: it locates one chunk at a time, so a
  streamed body is never held whole. It is proved to follow the same machine.
*/
module ChunkWalk {
  import opened Bytes
  import opened Chunked
  import G = ChunkedGrammar

  datatype Step =
    | Wait
    | ChunkAt(framing: nat, payload: nat)
    | LastAt(framing: nat)
    | Malformed(status: nat)

  /** Locate the next chunk; `afterPayload` says the CRLF closing the previous one is still unread. */
  function NextChunk(buf: bytes, afterPayload: bool): Step {
    if !afterPayload then NextHeader(buf, 0)
    else if |buf| >= 2 && buf[..2] == CRLF then NextHeader(buf[2..], 2)
    else if buf == [] || buf == [CR] then Wait
    else Malformed(400)
  }

  function NextHeader(rest: bytes, at: nat): Step {
    match FindCrlf(rest, CHUNK_LINE_MAX)
    case NeedMore => Wait
    case TooLong => Malformed(400)
    case At(nl) =>
      if HasBareCrLf(rest[..nl]) then Malformed(400)
      else
        match ParseSizeLine(rest[..nl])
        case None => Malformed(400)
        case Some(size) =>
          if size > 0 then ChunkAt(at + nl + 2, size)
          else
            var r := Run(rest, INIT);
            match r.verdict
            case Complete => LastAt(at + r.used)
            case More => Wait
            case Bad(status) => Malformed(status)
  }

  /** The machine at a chunk boundary, with `decoded` payload bytes behind it. */
  function Boundary(decoded: nat, afterPayload: bool): Machine {
    Machine(decoded, 0, if afterPayload then DataCrlf else Size)
  }

  // ----- what a run does not depend on

  /** Payload already counted changes nothing but the count. */
  lemma {:induction false} RunShift(rest: bytes, m: Machine, k: nat)
    ensures var r := Run(rest, m);
            Run(rest, m.(decoded := m.decoded + k)) == r.(end := r.end.(decoded := r.end.decoded + k))
    decreases |rest|, if m.state.Data? then 1 else 0
  {
    hide TakeTurn;
    TurnShift(rest, m, k);
    var t := TakeTurn(rest, m);
    if t.stop.None? {
      RunShift(rest[t.used..], t.next, k);
    }
  }

  lemma {:induction false} TurnShift(rest: bytes, m: Machine, k: nat)
    ensures var t := TakeTurn(rest, m);
            TakeTurn(rest, m.(decoded := m.decoded + k)) == t.(next := t.next.(decoded := t.next.decoded + k))
  {
    hide FindCrlf, ParseSizeLine, IsTrailer, Surfaced, HasBareCrLf;
  }

  lemma {:induction false} FindCrlfPrefix(s: bytes, n: nat, maxLine: nat)
    requires FindCrlf(s, maxLine).At? && FindCrlf(s, maxLine).len + 2 <= n <= |s|
    ensures FindCrlf(s[..n], maxLine) == FindCrlf(s, maxLine)
  {
    var i := FindCrlf(s, maxLine).len;
    var p := s[..n];
    var w := p[..Min(|p|, maxLine + 2)];
    assert CrlfAt(w, i);
    assert forall j :: 0 <= j < i ==> CrlfAt(w, j) == CrlfAt(s, j);
  }

  lemma {:induction false} TurnPrefix(s: bytes, n: nat, m: Machine)
    requires TakeTurn(s, m).stop.None? && TakeTurn(s, m).used <= n <= |s|
    ensures TakeTurn(s[..n], m) == TakeTurn(s, m)
  {
    hide SizeTurn, TrailerTurn;
    match m.state
    case Size => SizePrefix(s, n, m);
    case Trailer => TrailerPrefix(s, n, m);
    case Data(remaining) =>
      assert s[..n][..remaining] == s[..remaining];
    case DataCrlf =>
      assert s[..n][..2] == s[..2];
  }

  lemma {:induction false} SizePrefix(s: bytes, n: nat, m: Machine)
    requires SizeTurn(s, m).stop.None? && SizeTurn(s, m).used <= n <= |s|
    ensures SizeTurn(s[..n], m) == SizeTurn(s, m)
  {
    hide FindCrlf, ParseSizeLine, HasBareCrLf;
    var i := FindCrlf(s, CHUNK_LINE_MAX).len;
    FindCrlfPrefix(s, n, CHUNK_LINE_MAX);
    assert s[..n][..i] == s[..i];
  }

  lemma {:induction false} TrailerPrefix(s: bytes, n: nat, m: Machine)
    requires TrailerTurn(s, m).stop.None? && TrailerTurn(s, m).used <= n <= |s|
    ensures TrailerTurn(s[..n], m) == TrailerTurn(s, m)
  {
    hide FindCrlf, HasBareCrLf, IsTrailer, Surfaced;
    var i := FindCrlf(s, TRAILER_LINE_MAX).len;
    FindCrlfPrefix(s, n, TRAILER_LINE_MAX);
    assert s[..n][..i] == s[..i];
  }

  lemma {:induction false} TakeDrop(s: bytes, i: nat, j: nat)
    requires i + j <= |s|
    ensures s[..i + j][i..] == s[i..][..j]
  {
  }

  /** A completed run reads its extent and nothing after it. */
  lemma {:induction false} RunPrefix(s: bytes, m: Machine)
    requires Run(s, m).verdict == Complete
    ensures Run(s[..Run(s, m).used], m) == Run(s, m)
    decreases |s|, if m.state.Data? then 1 else 0
  {
    hide TakeTurn;
    if m.state == Done {
      G.DoneRuns(s, m);
      G.DoneRuns(s[..0], m);
    } else {
      G.StopsInDone(s, m);
      var t := TakeTurn(s, m);
      var tail := s[t.used..];
      var n := Run(s, m).used;
      TurnPrefix(s, n, m);
      RunPrefix(tail, t.next);
      TakeDrop(s, t.used, Run(tail, t.next).used);
    }
  }

  /** A run that used everything it had hands over at the next byte. */
  lemma {:induction false} Chain(a: bytes, b: bytes, m: Machine)
    requires Run(a, m).verdict == More && Run(a, m).used == |a|
    ensures Run(a + b, m) == Join(Run(a, m), Run(b, Run(a, m).end))
  {
    hide TakeTurn;
    RunExtends(a, b, m);
    Halves(a, b);
  }

  // ----- the walk follows the machine

  /** The CRLF left over from the previous chunk, consumed. */
  lemma {:induction false} EatsClosingCrlf(rest: bytes, decoded: nat)
    ensures Run(CRLF + rest, Boundary(decoded, true)) ==
            Then(Turn(2, Boundary(decoded, false), [], [], None), Run(rest, Boundary(decoded, false)))
  {
    Halves(CRLF, rest);
    assert TakeTurn(CRLF + rest, Boundary(decoded, true)) == Turn(2, Boundary(decoded, false), [], [], None);
  }

  function Closing(afterPayload: bool): bytes {
    if afterPayload then CRLF else []
  }

  /** A located chunk is a closing CRLF when one is due, then a good size line, then the payload. */
  lemma {:induction false} ChunkAtShape(buf: bytes, afterPayload: bool) returns (line: bytes, rest: bytes)
    requires NextChunk(buf, afterPayload).ChunkAt?
    ensures var s := NextChunk(buf, afterPayload);
            && G.GoodSizeLine(line, s.payload) && s.payload > 0
            && buf == Closing(afterPayload) + (line + CRLF + rest)
            && s.framing == |Closing(afterPayload)| + |line| + 2
  {
    hide NextHeader, G.GoodSizeLine;
    var body := if afterPayload then buf[2..] else buf;
    assert buf == Closing(afterPayload) + body;
    line, rest := HeaderShape(body, |Closing(afterPayload)|);
  }

  lemma {:induction false} HeaderShape(body: bytes, at: nat) returns (line: bytes, rest: bytes)
    requires NextHeader(body, at).ChunkAt?
    ensures var s := NextHeader(body, at);
            && G.GoodSizeLine(line, s.payload) && s.payload > 0
            && body == line + CRLF + rest && s.framing == at + |line| + 2
  {
    hide ParseSizeLine, HasBareCrLf, Run, FindCrlf;
    var nl := FindCrlf(body, CHUNK_LINE_MAX).len;
    line, rest := body[..nl], body[nl + 2..];
    LineSplit(body, nl);
    assert body == body[..nl + 2] + rest;
  }

  lemma {:induction false} HeaderLocated(line: bytes, size: nat, rest: bytes, afterPayload: bool)
    requires G.GoodSizeLine(line, size) && size > 0
    ensures NextChunk(Closing(afterPayload) + (line + CRLF + rest), afterPayload) ==
            ChunkAt(|Closing(afterPayload)| + |line| + 2, size)
  {
    var body := line + CRLF + rest;
    FindCrlfOfLine(line, rest, CHUNK_LINE_MAX);
    AppendAppend(line, CRLF, rest);
    Halves(line, CRLF + rest);
    Halves(CRLF, body);
    Empties(body);
  }

  lemma {:induction false} DataRuns(body: bytes, decoded: nat, left: nat)
    requires 0 < left && |body| <= left
    ensures Run(body, Machine(decoded, 0, Data(left))) ==
            Outcome(More, |body|,
                    Machine(decoded + |body|, 0, if |body| == left then DataCrlf else Data(left - |body|)), body, [])
  {
    var m := Machine(decoded, 0, Data(left));
    assert body[..|body|] == body;
    if |body| == left {
      var next := Machine(decoded + |body|, 0, DataCrlf);
      assert TakeTurn(body, m) == Turn(|body|, next, body, [], None);
      assert body[|body|..] == [];
      assert Run([], next) == Outcome(More, 0, next, [], []);
      Empties(body);
    }
  }

  /** The framing of a located chunk takes the machine from the boundary into that chunk's payload. */
  lemma {:induction false} HeaderRuns(line: bytes, size: nat, decoded: nat, afterPayload: bool)
    requires G.GoodSizeLine(line, size) && size > 0
    ensures Run(Closing(afterPayload) + (line + CRLF), Boundary(decoded, afterPayload)) ==
            Outcome(More, |Closing(afterPayload)| + |line| + 2, Machine(decoded, 0, Data(size)), [], [])
  {
    hide TakeTurn, FindCrlf, G.GoodSizeLine;
    var m := Boundary(decoded, false);
    var head := line + CRLF;
    Empties(head);
    G.SizeLineTurn(line, size, [], m);
    DataRuns([], decoded, size);
    assert Run(head, m) == Then(TakeTurn(head, m), Run([], Machine(decoded, 0, Data(size))));
    if afterPayload {
      EatsClosingCrlf(head, decoded);
    }
  }

  /**
    What the framer locates is what the machine reads: the framing bytes bring the
    machine to exactly the declared payload, and reading them back locates the same
    chunk again.
  */
  lemma {:induction false} ChunkAgrees(buf: bytes, decoded: nat, afterPayload: bool)
    requires NextChunk(buf, afterPayload).ChunkAt?
    ensures var s := NextChunk(buf, afterPayload);
            && 2 < s.framing <= |buf| && s.framing <= CHUNK_LINE_MAX + 4 && s.payload > 0
            && Run(buf[..s.framing], Boundary(decoded, afterPayload)) ==
               Outcome(More, s.framing, Machine(decoded, 0, Data(s.payload)), [], [])
            && NextChunk(buf[..s.framing], afterPayload) == s
  {
    hide FindCrlf, Run, TakeTurn, NextHeader, ParseSizeLine;
    var s := NextChunk(buf, afterPayload);
    var line, rest := ChunkAtShape(buf, afterPayload);
    SizeLineNotEmpty(line);
    var pre := Closing(afterPayload) + (line + CRLF);
    AppendAppend(Closing(afterPayload), line + CRLF, rest);
    Halves(pre, rest);
    assert buf[..s.framing] == pre;
    HeaderRuns(line, s.payload, decoded, afterPayload);
    Empties(line + CRLF);
    HeaderLocated(line, s.payload, [], afterPayload);
  }

  lemma {:induction false} SizeLineNotEmpty(line: bytes)
    requires ParseSizeLine(line).Some?
    ensures line != []
  {
  }

  /** The terminal block: the machine completes on it, and it is itself a whole (empty) message. */
  lemma {:induction false} LastAgrees(buf: bytes, decoded: nat, afterPayload: bool)
    requires NextChunk(buf, afterPayload).LastAt?
    ensures var s, at := NextChunk(buf, afterPayload), |Closing(afterPayload)|;
            && at + 2 < s.framing <= |buf|
            && var r, block := Run(buf[..s.framing], Boundary(decoded, afterPayload)),
                            Run(buf[..s.framing][at..], INIT);
               && r.verdict == Complete && r.used == s.framing && r.payload == []
               && block.verdict == Complete && block.used == s.framing - at && block.payload == []
               && r.lines == block.lines
  {
    hide Run, NextChunk, NextHeader;
    var body := LastBody(buf, afterPayload);
    var r := Run(body, INIT);
    LastIsEmpty(body);
    RunPrefix(body, INIT);
    TakeBehind(Closing(afterPayload), body, r.used);
    FromBoundary(body[..r.used], decoded, afterPayload);
  }

  lemma {:induction false} TakeBehind(a: bytes, b: bytes, n: nat)
    requires n <= |b|
    ensures (a + b)[..|a| + n] == a + b[..n] && (a + b)[..|a| + n][|a|..] == b[..n]
  {
  }

  /** At a chunk boundary a run reads what a fresh one reads, behind what closes the previous chunk. */
  lemma {:induction false} FromBoundary(block: bytes, decoded: nat, afterPayload: bool)
    ensures var r, b := Run(Closing(afterPayload) + block, Boundary(decoded, afterPayload)), Run(block, INIT);
            r.verdict == b.verdict && r.used == |Closing(afterPayload)| + b.used && r.payload ==
            b.payload && r.lines == b.lines
  {
    hide Run;
    RunShift(block, INIT, decoded);
    if afterPayload {
      EatsClosingCrlf(block, decoded);
      Empties(Run(block, INIT).lines);
      Empties(Run(block, INIT).payload);
    } else {
      Empties(block);
    }
  }

  /** What is left of the terminal block once the previous chunk is closed. */
  lemma {:induction false} LastBody(buf: bytes, afterPayload: bool) returns (body: bytes)
    requires NextChunk(buf, afterPayload).LastAt?
    ensures buf == Closing(afterPayload) + body && NextHeader(body, 0).LastAt?
    ensures Run(body, INIT).verdict == Complete
    ensures NextChunk(buf, afterPayload).framing == |Closing(afterPayload)| + Run(body, INIT).used
  {
    hide FindCrlf, Run, ParseSizeLine;
    body := if afterPayload then buf[2..] else buf;
    assert buf == Closing(afterPayload) + body;
  }

  /** After a zero size line no payload can follow. */
  lemma {:induction false} LastIsEmpty(rest: bytes)
    requires NextHeader(rest, 0).LastAt?
    ensures Run(rest, INIT).payload == [] && 2 < Run(rest, INIT).used
  {
    var t := TakeTurn(rest, INIT);
    assert t.next.state == Trailer && t.used > 2 by {
      SizeLineNotEmpty(rest[..FindCrlf(rest, CHUNK_LINE_MAX).len]);
    }
    NoPayloadInTrailers(rest[t.used..], t.next);
  }

  lemma {:induction false} NoPayloadInTrailers(rest: bytes, m: Machine)
    requires m.state == Trailer || m.state == Done
    ensures Run(rest, m).payload == []
    decreases |rest|
  {
    var t := TakeTurn(rest, m);
    if t.stop.None? {
      NoPayloadInTrailers(rest[t.used..], t.next);
    }
  }

  /**
    When the walk waits the machine waits too, and what the walk refuses the machine
    refuses with the same status. One refusal comes early: a lone byte that is not CR
    where a closing CRLF is due, which the machine refuses at the byte after it.
  */
  lemma {:induction false} VerdictAgrees(buf: bytes, decoded: nat, afterPayload: bool)
    ensures var s, m := NextChunk(buf, afterPayload), Boundary(decoded, afterPayload);
            && (s.Wait? ==> Run(buf, m).verdict == More && Run(buf, m).payload == [])
            && (s.Malformed? && !(afterPayload && |buf| == 1) ==>
                  Run(buf, m).verdict == Bad(s.status) && Run(buf, m).payload == [])
            && (s.Malformed? && afterPayload && |buf| == 1 ==>
                  s.status == 400 && forall more: bytes :: more != [] ==> Run(buf + more, m).verdict == Bad(400))
  {
    hide FindCrlf, NextHeader;
    if !afterPayload {
      HeaderVerdict(buf, decoded, 0);
    } else if |buf| >= 2 && buf[..2] == CRLF {
      assert buf == CRLF + buf[2..];
      EatsClosingCrlf(buf[2..], decoded);
      HeaderVerdict(buf[2..], decoded, 2);
    } else {
      ClosingRefused(buf, decoded);
    }
  }

  lemma {:induction false} ClosingRefused(buf: bytes, decoded: nat)
    requires !(|buf| >= 2 && buf[..2] == CRLF)
    ensures var m := Boundary(decoded, true);
            && (|buf| < 2 ==> Run(buf, m) == Outcome(More, 0, m, [], []))
            && (|buf| >= 2 ==> Run(buf, m) == Outcome(Bad(400), 0, m, [], []))
            && (|buf| == 1 && buf[0] != CR ==>
                  forall more: bytes :: more != [] ==> Run(buf + more, m).verdict == Bad(400))
  {
    var m := Boundary(decoded, true);
    if |buf| == 1 && buf[0] != CR {
      forall more: bytes | more != []
        ensures Run(buf + more, m).verdict == Bad(400)
      {
        assert (buf + more)[..2][0] == buf[0];
      }
    }
  }

  lemma {:induction false} HeaderVerdict(rest: bytes, decoded: nat, at: nat)
    ensures var s, r := NextHeader(rest, at), Run(rest, Boundary(decoded, false));
            && (s.Wait? ==> r.verdict == More && r.payload == [])
            && (s.Malformed? ==> r.verdict == Bad(s.status) && r.payload == [])
  {
    var r := Run(rest, INIT);
    HeaderTurn(rest, at);
    hide TakeTurn, NextHeader;
    RunShift(rest, INIT, decoded);
    var t := TakeTurn(rest, INIT);
    if t.stop.None? && t.next.state == Trailer {
      NoPayloadInTrailers(rest[t.used..], t.next);
    }
  }

  /** The walk's reading of a size line is the machine's. */
  lemma {:induction false} HeaderTurn(rest: bytes, at: nat)
    ensures var s, t := NextHeader(rest, at), TakeTurn(rest, INIT);
            && (s.ChunkAt? ==> t.stop.None? && t.next.state.Data?)
            && (t.stop == Some(More) ==> s.Wait?)
            && (t.stop.Some? && t.stop.value.Bad? ==> s == Malformed(t.stop.value.status))
            && t.stop != Some(Complete)
            && (t.stop.None? && !t.next.state.Data? ==>
                  && t.next.state == Trailer
                  && match Run(rest, INIT).verdict
                     case More => s.Wait?
                     case Complete => s.LastAt?
                     case Bad(status) => s == Malformed(status))
            && (t.stop.None? && t.next.state.Data? ==> s.ChunkAt?)
            && t.payload == [] && t.next.trailerBytes == 0
  {
    hide Run, ParseSizeLine, FindCrlf;
  }

  /** Whatever the walk finds or refuses, it finds or refuses with more bytes behind. */
  lemma {:induction false} NextExtends(buf: bytes, more: bytes, afterPayload: bool)
    requires !NextChunk(buf, afterPayload).Wait?
    ensures NextChunk(buf + more, afterPayload) == NextChunk(buf, afterPayload)
  {
    hide NextHeader;
    if !afterPayload {
      HeaderExtends(buf, more, 0);
    } else if |buf| >= 2 && buf[..2] == CRLF {
      assert (buf + more)[..2] == buf[..2];
      DropAppend(buf, more, 2);
      HeaderExtends(buf[2..], more, 2);
    } else {
      assert (buf + more)[0] == buf[0];
      assert |buf| >= 2 ==> (buf + more)[..2] == buf[..2];
    }
  }

  lemma {:induction false} HeaderExtends(rest: bytes, more: bytes, at: nat)
    requires !NextHeader(rest, at).Wait?
    ensures NextHeader(rest + more, at) == NextHeader(rest, at)
  {
    FindCrlfExtends(rest, more, CHUNK_LINE_MAX);
    RunExtends(rest, more, INIT);
    hide Run, ParseSizeLine;
    var f := FindCrlf(rest, CHUNK_LINE_MAX);
    hide FindCrlf;
    if f.At? {
      TakeAppend(rest, more, f.len);
    }
  }

  // ----- how much a reader can leave unread

  /** What a waiting scan leaves buffered: less than the longest line it reads. */
  lemma {:induction false} InFlightLine(rest: bytes, m: Machine)
    requires Run(rest, m).verdict == More
    ensures |rest| - Run(rest, m).used <= TRAILER_LINE_MAX + 1
    decreases |rest|, if m.state.Data? then 1 else 0
  {
    hide TakeTurn;
    var t := TakeTurn(rest, m);
    if t.stop.None? {
      InFlightLine(rest[t.used..], t.next);
    } else {
      WaitingTurn(rest, m);
    }
  }

  lemma {:induction false} WaitingTurn(rest: bytes, m: Machine)
    requires TakeTurn(rest, m).stop == Some(More)
    ensures |rest| - TakeTurn(rest, m).used <= TRAILER_LINE_MAX + 1
  {
  }

  /** A trailer section that is not refused stays within its cap. */
  lemma {:induction false} TrailerSectionCapped(rest: bytes, m: Machine)
    requires m.state == Trailer && m.trailerBytes <= TRAILER_MAX && !Run(rest, m).verdict.Bad?
    ensures m.trailerBytes + Run(rest, m).used <= TRAILER_MAX
    decreases |rest|
  {
    var t := TakeTurn(rest, m);
    if t.stop.None? {
      G.TrailerTurnShape(rest, m);
      hide TakeTurn;
      if t.next.state == Done {
        G.DoneRuns(rest[t.used..], t.next);
      } else {
        TrailerSectionCapped(rest[t.used..], t.next);
      }
    }
  }

  /** The most the walk can be holding while it waits, and the most a terminal block occupies. */
  const TERMINAL_MAX: nat := 2 + (CHUNK_LINE_MAX + 2) + TRAILER_MAX

  lemma {:induction false} WalkBounds(buf: bytes, afterPayload: bool)
    ensures NextChunk(buf, afterPayload).Wait? ==> |buf| <= TERMINAL_MAX + TRAILER_LINE_MAX + 1
    ensures NextChunk(buf, afterPayload).LastAt? ==> NextChunk(buf, afterPayload).framing <= TERMINAL_MAX
  {
    hide NextHeader;
    if !afterPayload {
      HeaderBounds(buf, 0);
    } else if |buf| >= 2 && buf[..2] == CRLF {
      HeaderBounds(buf[2..], 2);
    }
  }

  lemma {:induction false} HeaderBounds(rest: bytes, at: nat)
    ensures NextHeader(rest, at).Wait? ==> |rest| <= TERMINAL_MAX - 2 + TRAILER_LINE_MAX + 1
    ensures NextHeader(rest, at).LastAt? ==> NextHeader(rest, at).framing - at <= TERMINAL_MAX - 2
  {
    var t := TakeTurn(rest, INIT);
    HeaderTurn(rest, at);
    assert t.stop.None? ==> t.used <= CHUNK_LINE_MAX + 2;
    assert t.stop == Some(More) ==> |rest| <= CHUNK_LINE_MAX + 1;
    assert NextHeader(rest, at).LastAt? ==> NextHeader(rest, at).framing == at + Run(rest, INIT).used;
    hide TakeTurn, NextHeader;
    if t.stop.None? && t.next.state == Trailer && !Run(rest, INIT).verdict.Bad? {
      var tail := rest[t.used..];
      TrailerSectionCapped(tail, t.next);
      if Run(tail, t.next).verdict == More {
        InFlightLine(tail, t.next);
      }
    }
  }
}
