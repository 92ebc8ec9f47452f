/**
  The chunked transfer coding of section 7.1 of RFC 9112, as a machine that
  reads a byte string and says where the message ends, what its payload is and
  which trailer lines it surfaces.

  `Run` is written on the bytes still unread, so it carries no offsets; the
  imperative scanner in `ChunkedReaders` keeps the offsets and is proved against
  it.
*/
module Chunked {
  import opened Bytes

  const CHUNK_LINE_MAX: nat := 256
  const TRAILER_LINE_MAX: nat := 1024
  const TRAILER_MAX: nat := 8 * 1024

  // ----- size lines

  function HexDigit(b: byte): (r: Option<nat>)
    ensures r.Some? ==> r.value < 16
  {
    if 48 <= b <= 57 then Some(b - 48)
    else if 97 <= b <= 102 then Some(b - 97 + 10)
    else if 65 <= b <= 70 then Some(b - 65 + 10)
    else None
  }

  predicate AllHex(s: bytes) {
    forall i :: 0 <= i < |s| ==> HexDigit(s[i]).Some?
  }

  /** The number the first `n` bytes of `s` denote in hex, most significant digit first. */
  function HexValue(s: bytes, n: nat): nat
    requires n <= |s|
  {
    if n == 0 then 0
    else 16 * HexValue(s, n - 1) + (match HexDigit(s[n - 1]) case Some(d) => d case None => 0)
  }

  /** Where the run of hex digits starting at `i` ends. */
  function HexRun(s: bytes, i: nat): (n: nat)
    requires i <= |s|
    ensures i <= n <= |s|
    ensures forall k :: i <= k < n ==> HexDigit(s[k]).Some?
    ensures n < |s| ==> HexDigit(s[n]).None?
    decreases |s| - i
  {
    if i < |s| && HexDigit(s[i]).Some? then HexRun(s, i + 1) else i
  }

  predicate IsOws(b: byte) {
    b == SP || b == HTAB
  }

  /** The first index at or after `i` that is neither a space nor a tab. */
  function SkipOws(s: bytes, i: nat): (n: nat)
    requires i <= |s|
    ensures i <= n <= |s|
    ensures forall k :: i <= k < n ==> IsOws(s[k])
    ensures n < |s| ==> !IsOws(s[n])
    decreases |s| - i
  {
    if i < |s| && IsOws(s[i]) then SkipOws(s, i + 1) else i
  }

  /** The size a chunk-size line declares: hex digits, then nothing or an ignored extension. */
  function ParseSizeLine(line: bytes): (r: Option<nat>)
    ensures r.Some? ==> r.value <= USIZE_MAX
  {
    var digits := HexRun(line, 0);
    if digits == 0 || HexValue(line, digits) > USIZE_MAX then None
    else
      var rest := SkipOws(line, digits);
      if rest == |line| || line[rest] == SEMICOLON then Some(HexValue(line, digits)) else None
  }

  // ----- trailer lines

  datatype Field = Field(name: bytes, value: bytes)

  /** A trailer field line as name and value; `None` when the line is malformed. */
  function SplitTrailer(line: bytes): (r: Option<Field>)
    ensures r.Some? ==> IsToken(r.value.name) && !HasFieldBreak(r.value.value)
  {
    match FindFrom(line, COLON, 0)
    case None => None
    case Some(colon) =>
      if !IsToken(line[..colon]) then None
      else
        var value := Trim(line[colon + 1..]);
        if HasFieldBreak(value) then None else Some(Field(line[..colon], value))
  }

  const FORBIDDEN_TRAILERS: seq<bytes> := [
    Ascii("transfer-encoding"), Ascii("content-length"), Ascii("host"), Ascii("authorization"),
    Ascii("proxy-authorization"), Ascii("cookie")]

  predicate ForbiddenTrailer(name: bytes) {
    exists i :: 0 <= i < |FORBIDDEN_TRAILERS| && EqIgnoreCase(name, FORBIDDEN_TRAILERS[i])
  }

  predicate IsTrailer(line: bytes) {
    SplitTrailer(line).Some?
  }

  /** A well-formed trailer line whose name may be handed on. */
  predicate Surfaced(line: bytes) {
    IsTrailer(line) && !ForbiddenTrailer(SplitTrailer(line).value.name)
  }

  /** Every line split, or nothing when one of them is malformed. */
  function Fields(lines: seq<bytes>): (r: Option<seq<Field>>)
    ensures r.Some? ==> |r.value| == |lines|
    ensures r.Some? <==> forall i :: 0 <= i < |lines| ==> IsTrailer(lines[i])
  {
    if lines == [] then Some([])
    else
      match (SplitTrailer(lines[0]), Fields(lines[1..]))
      case (Some(f), Some(fs)) =>
        assert forall i :: 1 <= i < |lines| ==> lines[i] == lines[1..][i - 1];
        Some([f] + fs)
      case (None, _) =>
        assert !IsTrailer(lines[0]);
        None
      case (_, None) =>
        assert forall i :: 0 <= i < |lines| - 1 ==> lines[i + 1] == lines[1..][i];
        None
  }

  // ----- the machine

  datatype State =
    | Size
    | Data(remaining: nat)
    | DataCrlf
    | Trailer
    | Done

  /** What the scanner remembers besides its offset. */
  datatype Machine = Machine(decoded: nat, trailerBytes: nat, state: State)

  const INIT: Machine := Machine(0, 0, Size)

  datatype Verdict =
    | More
    | Complete
    | Bad(status: nat)

  /** One iteration of the scan loop over the unread bytes. */
  datatype Turn = Turn(used: nat, next: Machine, payload: bytes, lines: seq<bytes>, stop: Option<Verdict>)

  function Halt(m: Machine, v: Verdict): Turn {
    Turn(0, m, [], [], Some(v))
  }

  function SizeTurn(rest: bytes, m: Machine): Turn {
    match FindCrlf(rest, CHUNK_LINE_MAX)
    case NeedMore => Halt(m, More)
    case TooLong => Halt(m, Bad(400))
    case At(i) =>
      if HasBareCrLf(rest[..i]) then Halt(m, Bad(400))
      else
        match ParseSizeLine(rest[..i])
        case None => Halt(m, Bad(400))
        case Some(size) =>
          Turn(i + 2, m.(state := if size == 0 then Trailer else Data(size)), [], [], None)
  }

  function DataTurn(rest: bytes, m: Machine): Turn
    requires m.state.Data?
  {
    var take := Min(m.state.remaining, |rest|);
    var moved := m.(decoded := m.decoded + take);
    if take == m.state.remaining then
      Turn(take, moved.(state := DataCrlf), rest[..take], [], None)
    else
      Turn(take, moved.(state := Data(m.state.remaining - take)), rest[..take], [], Some(More))
  }

  function DataCrlfTurn(rest: bytes, m: Machine): Turn {
    if |rest| < 2 then Halt(m, More)
    else if rest[..2] != CRLF then Halt(m, Bad(400))
    else Turn(2, m.(state := Size), [], [], None)
  }

  function TrailerTurn(rest: bytes, m: Machine): Turn {
    match FindCrlf(rest, TRAILER_LINE_MAX)
    case NeedMore => Halt(m, More)
    case TooLong => Halt(m, Bad(431))
    case At(i) =>
      var counted := m.(trailerBytes := m.trailerBytes + i + 2);
      var line := rest[..i];
      if counted.trailerBytes > TRAILER_MAX then Halt(counted, Bad(431))
      else if HasBareCrLf(line) then Turn(i + 2, counted, [], [], Some(Bad(400)))
      else if line == [] then Turn(i + 2, counted.(state := Done), [], [], None)
      else if !IsTrailer(line) then Turn(i + 2, counted, [], [], Some(Bad(400)))
      else Turn(i + 2, counted, [], if Surfaced(line) then [line] else [], None)
  }

  function TakeTurn(rest: bytes, m: Machine): (t: Turn)
    ensures t.used <= |rest|
    ensures t.stop.None? ==> t.used > 0 || (m.state == Data(0) && t.next.state == DataCrlf)
    ensures t.next.decoded == m.decoded + |t.payload|
  {
    match m.state
    case Done => Halt(m, Complete)
    case Size => SizeTurn(rest, m)
    case Data(_) => DataTurn(rest, m)
    case DataCrlf => DataCrlfTurn(rest, m)
    case Trailer => TrailerTurn(rest, m)
  }

  datatype Outcome = Outcome(verdict: Verdict, used: nat, end: Machine, payload: bytes, lines: seq<bytes>)

  /** A turn followed by the rest of the run. */
  function Then(t: Turn, r: Outcome): Outcome {
    Outcome(r.verdict, t.used + r.used, r.end, t.payload + r.payload, t.lines + r.lines)
  }

  /** The loop: turns until one stops, collecting payload and surfaced trailer lines. */
  function Run(rest: bytes, m: Machine): (r: Outcome)
    ensures r.used <= |rest|
    ensures r.end.decoded == m.decoded + |r.payload|
    decreases |rest|, if m.state.Data? then 1 else 0
  {
    var t := TakeTurn(rest, m);
    if t.stop.Some? then Outcome(t.stop.value, t.used, t.next, t.payload, t.lines)
    else
      Then(t, Run(rest[t.used..], t.next))
  }

  /** Only lines that may be handed on are. */
  lemma {:induction false} OnlySurfacedLines(rest: bytes, m: Machine)
    ensures forall i :: 0 <= i < |Run(rest, m).lines| ==> Surfaced(Run(rest, m).lines[i])
    decreases |rest|, if m.state.Data? then 1 else 0
  {
    var t := TakeTurn(rest, m);
    assert forall i :: 0 <= i < |t.lines| ==> Surfaced(t.lines[i]);
    if t.stop.None? {
      OnlySurfacedLines(rest[t.used..], t.next);
    }
  }

  /** A run that waits has not finished, and a refusal is a 400 or a 431. */
  lemma {:induction false} RunStops(rest: bytes, m: Machine)
    ensures Run(rest, m).verdict == More ==> Run(rest, m).end.state != Done
    ensures Run(rest, m).verdict.Bad? ==> Run(rest, m).verdict.status == 400 || Run(rest, m).verdict.status == 431
    decreases |rest|, if m.state.Data? then 1 else 0
  {
    TurnStops(rest, m);
    hide TakeTurn;
    var t := TakeTurn(rest, m);
    if t.stop.None? {
      RunStops(rest[t.used..], t.next);
    }
  }

  lemma {:induction false} TurnStops(rest: bytes, m: Machine)
    ensures var t := TakeTurn(rest, m);
            && (t.stop == Some(More) ==> t.next.state != Done)
            && (t.stop.Some? && t.stop.value.Bad? ==> t.stop.value.status == 400 || t.stop.value.status == 431)
  {
    hide FindCrlf, ParseSizeLine, IsTrailer, Surfaced, HasBareCrLf;
  }

  /** A run that waited, then the run that took over from it. */
  function Join(a: Outcome, b: Outcome): Outcome {
    Outcome(b.verdict, a.used + b.used, b.end, a.payload + b.payload, a.lines + b.lines)
  }

  // ----- arrival order does not matter

  /** A turn that did not wait reads the same bytes the same way when more follow. */
  lemma {:induction false} TurnExtends(a: bytes, b: bytes, m: Machine)
    requires TakeTurn(a, m).stop != Some(More)
    ensures TakeTurn(a + b, m) == TakeTurn(a, m)
  {
    match m.state
    case Size =>
      FindCrlfExtends(a, b, CHUNK_LINE_MAX);
      var f := FindCrlf(a, CHUNK_LINE_MAX);
      if f.At? {
        assert (a + b)[..f.len] == a[..f.len];
      }
    case Trailer =>
      FindCrlfExtends(a, b, TRAILER_LINE_MAX);
      var f := FindCrlf(a, TRAILER_LINE_MAX);
      if f.At? {
        assert (a + b)[..f.len] == a[..f.len];
      }
    case Data(remaining) =>
      assert (a + b)[..remaining] == a[..remaining];
    case DataCrlf =>
      assert (a + b)[..2] == a[..2];
    case Done =>
  }

  /** Where a waiting run left off, seen from the bytes that were already there. */
  lemma {:induction false} ResumeTurn(a: bytes, b: bytes, m: Machine)
    requires TakeTurn(a, m).stop == Some(More)
    ensures var t := TakeTurn(a, m); Run(a + b, m) == Then(t, Run((a + b)[t.used..], t.next))
  {
    var t := TakeTurn(a, m);
    var s := a + b;
    if m.state.Data? {
      ResumeData(a, b, m);
    } else {
      assert t.used == 0 && t.next == m && t.payload == [] && t.lines == [];
      assert s[0..] == s;
    }
  }

  lemma {:induction false} ResumeData(a: bytes, b: bytes, m: Machine)
    requires m.state.Data? && |a| < m.state.remaining
    ensures var t := DataTurn(a, m); Run(a + b, m) == Then(t, Run((a + b)[t.used..], t.next))
  {
    SplitData(a, b, m);
    var t := DataTurn(a, m);
    var later, whole := DataTurn(b, t.next), DataTurn(a + b, m);
    if later.stop.None? {
      ThenThen(t, later, whole, Run(b[later.used..], later.next));
    }
  }

  /** Payload taken in two helpings is payload taken in one. */
  lemma {:induction false} SplitData(a: bytes, b: bytes, m: Machine)
    requires m.state.Data? && |a| < m.state.remaining
    ensures var t := DataTurn(a, m);
            var later, whole := DataTurn(b, t.next), DataTurn(a + b, m);
            && whole == Turn(t.used + later.used, later.next, t.payload + later.payload, [], later.stop)
            && (a + b)[t.used..] == b
            && (a + b)[whole.used..] == b[later.used..]
  {
    var t := DataTurn(a, m);
    assert t.payload == a;
    if m.state.remaining - |a| > |b| {
      assert DataTurn(b, t.next).payload == b && DataTurn(a + b, m).payload == a + b;
    }
  }

  lemma {:induction false} ThenThen(t: Turn, u: Turn, tu: Turn, r: Outcome)
    requires tu.used == t.used + u.used && tu.payload == t.payload + u.payload && tu.lines == t.lines + u.lines
    ensures Then(tu, r) == Then(t, Then(u, r))
  {
    assert t.payload + (u.payload + r.payload) == tu.payload + r.payload;
    assert t.lines + (u.lines + r.lines) == tu.lines + r.lines;
  }

  /**
    Bytes that arrive later change nothing a run already decided, and a run that
    waited is completed by exactly the run that resumes it.
  */
  lemma {:induction false} RunExtends(a: bytes, b: bytes, m: Machine)
    ensures Run(a, m).verdict != More ==> Run(a + b, m) == Run(a, m)
    ensures Run(a, m).verdict == More ==>
              Run(a + b, m) == Join(Run(a, m), Run((a + b)[Run(a, m).used..], Run(a, m).end))
    decreases |a|, if m.state.Data? then 1 else 0
  {
    hide TakeTurn;
    var t := TakeTurn(a, m);
    if t.stop == Some(More) {
      ResumeTurn(a, b, m);
    } else {
      TurnExtends(a, b, m);
      if t.stop.None? {
        var a' := a[t.used..];
        DropAppend(a, b, t.used);
        RunExtends(a', b, t.next);
        var r := Run(a', t.next);
        assert Run(a, m) == Then(t, r);
        assert Run(a + b, m) == Then(t, Run(a' + b, t.next));
        DropDrop(a + b, t.used, r.used);
        ThenJoin(t, r, Run((a' + b)[r.used..], r.end));
      }
    }
  }

  lemma {:induction false} ThenJoin(t: Turn, a: Outcome, b: Outcome)
    ensures Then(t, Join(a, b)) == Join(Then(t, a), b)
  {
    AppendAppend(t.payload, a.payload, b.payload);
    AppendAppend(t.lines, a.lines, b.lines);
  }

  // ----- a resumable scan over arrivals

  /**
    The scan resumed once per arrival: `acc` is what the scan has done so far and
    `unread` the buffered bytes it has not consumed. It stops at the first verdict.
  */
  function Feed(acc: Outcome, unread: bytes, arrivals: seq<bytes>): Outcome
    decreases |arrivals|
  {
    if acc.verdict != More || arrivals == [] then acc
    else
      var buffered := unread + arrivals[0];
      var r := Run(buffered, acc.end);
      Feed(Join(acc, r), buffered[r.used..], arrivals[1..])
  }

  const NOTHING_YET: Outcome := Outcome(More, 0, INIT, [], [])

  /** For any cuts of the same bytes the resumed scan ends exactly where one pass over them ends. */
  lemma {:induction false} SegmentationIndependent(arrivals: seq<bytes>)
    ensures Feed(NOTHING_YET, [], arrivals) == Run(Flatten(arrivals), INIT)
  {
    RunNothing();
    FeedFrom([], arrivals);
    assert [] + Flatten(arrivals) == Flatten(arrivals);
  }

  lemma {:induction false} RunNothing()
    ensures Run([], INIT) == NOTHING_YET
  {
    assert FindCrlf([], CHUNK_LINE_MAX).NeedMore?;
    assert TakeTurn([], INIT) == Halt(INIT, More);
  }

  lemma {:induction false} FeedFrom(seen: bytes, arrivals: seq<bytes>)
    ensures var acc := Run(seen, INIT);
            Feed(acc, seen[acc.used..], arrivals) == Run(seen + Flatten(arrivals), INIT)
    decreases |arrivals|
  {
    hide TakeTurn;
    var acc := Run(seen, INIT);
    if acc.verdict != More {
      RunExtends(seen, Flatten(arrivals), INIT);
    } else if arrivals == [] {
      assert seen + Flatten(arrivals) == seen;
    } else {
      RunExtends(seen, arrivals[0], INIT);
      DropAppend(seen, arrivals[0], acc.used);
      var r := Run(seen[acc.used..] + arrivals[0], acc.end);
      DropDrop(seen + arrivals[0], acc.used, r.used);
      FeedFrom(seen + arrivals[0], arrivals[1..]);
      AppendAppend(seen, arrivals[0], Flatten(arrivals[1..]));
    }
  }
}
