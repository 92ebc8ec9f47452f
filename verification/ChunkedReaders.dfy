/**
  The readers built on the chunked machine: the resumable scanner with its
  offsets, the copying decoder, and the in-place compactor. Each is a loop over
  mutable state, proved against `Chunked.Run`.
*/
module ChunkedReaders {
  import opened Bytes
  import opened Chunked
  import G = ChunkedGrammar

  /** A half-open range of positions in a body. */
  datatype Span = Span(lo: nat, hi: nat)

  predicate Within(body: bytes, spans: seq<Span>) {
    forall i :: 0 <= i < |spans| ==> spans[i].lo <= spans[i].hi <= |body|
  }

  /** Spans in increasing order, none touching the next one's bytes, all inside `[lo, hi)`. */
  predicate Ascending(spans: seq<Span>, lo: nat, hi: nat) {
    && lo <= hi
    && (forall i :: 0 <= i < |spans| ==> lo <= spans[i].lo <= spans[i].hi <= hi)
    && (forall i, j :: 0 <= i < j < |spans| ==> spans[i].hi <= spans[j].lo)
  }

  /** The bytes the first `n` spans cover, in order. */
  function GatherTo(body: bytes, spans: seq<Span>, n: nat): bytes
    requires Within(body, spans) && n <= |spans|
  {
    if n == 0 then [] else GatherTo(body, spans, n - 1) + Slice(body, spans[n - 1])
  }

  function Gather(body: bytes, spans: seq<Span>): bytes
    requires Within(body, spans)
  {
    GatherTo(body, spans, |spans|)
  }

  lemma {:induction false} GatherPrefix(body: bytes, spans: seq<Span>, s: Span, n: nat)
    requires Within(body, spans) && s.lo <= s.hi <= |body| && n <= |spans|
    ensures GatherTo(body, spans + [s], n) == GatherTo(body, spans, n)
  {
    if n > 0 {
      GatherPrefix(body, spans, s, n - 1);
    }
  }

  function Pieces(body: bytes, spans: seq<Span>): seq<bytes>
    requires Within(body, spans)
  {
    seq(|spans|, i requires 0 <= i < |spans| => body[spans[i].lo..spans[i].hi])
  }

  lemma {:induction false} GatherPush(body: bytes, spans: seq<Span>, s: Span)
    requires Within(body, spans) && s.lo <= s.hi <= |body|
    ensures Within(body, spans + [s])
    ensures Gather(body, spans + [s]) == Gather(body, spans) + Slice(body, s)
    ensures Pieces(body, spans + [s]) == Pieces(body, spans) + [body[s.lo..s.hi]]
  {
    GatherPrefix(body, spans, s, |spans|);
  }

  lemma {:induction false} GatherNothing(body: bytes)
    ensures Gather(body, []) == [] && Pieces(body, []) == []
  {
  }

  /** The size-line loop: checked multiply and add, digit by digit. */
  method ReadSizeLine(line: bytes) returns (size: Option<nat>)
    ensures size == ParseSizeLine(line)
  {
    var digits, n := 0, 0;
    while digits < |line| && HexDigit(line[digits]).Some?
      invariant digits <= |line| && n == HexValue(line, digits) <= USIZE_MAX
      invariant HexRun(line, 0) == HexRun(line, digits)
    {
      var d := HexDigit(line[digits]).value;
      digits := digits + 1;
      if n * 16 > USIZE_MAX || n * 16 + d > USIZE_MAX {
        HexValueGrows(line, digits, HexRun(line, digits));
        return None;
      }
      n := n * 16 + d;
    }
    if digits == 0 {
      return None;
    }
    var rest := SkipOws(line, digits);
    if rest == |line| || line[rest] == SEMICOLON {
      return Some(n);
    }
    return None;
  }

  lemma {:induction false} HexValueGrows(s: bytes, i: nat, j: nat)
    requires i <= j <= |s|
    ensures HexValue(s, i) <= HexValue(s, j)
    decreases j
  {
    if i < j {
      HexValueGrows(s, i, j - 1);
    }
  }

  /** What each state passes on: payload from a chunk, lines from the trailers, and nothing from the rest. */
  lemma {:induction false} TurnReports(rest: bytes, m: Machine)
    ensures var t := TakeTurn(rest, m);
            && (m.state == Done ==> t == Turn(0, m, [], [], Some(Complete)))
            && (!m.state.Data? ==> t.payload == []) && (m.state.Data? ==> t.payload == rest[..t.used])
            && (m.state != Trailer ==> t.lines == [])
  {
    hide ParseSizeLine, FindCrlf, HasBareCrLf;
  }

  /** Where a scan of a growing body stands. */
  class ChunkScan {
    var consumed: nat
    var decoded: nat
    var trailerBytes: nat
    var state: State

    ghost function Memory(): Machine
      reads this
    {
      Machine(decoded, trailerBytes, state)
    }

    constructor ()
      ensures consumed == 0 && Memory() == INIT
    {
      consumed, decoded, trailerBytes, state := 0, 0, 0, Size;
    }

    /** A scan picked up where an earlier arrival left it. */
    constructor Resumed(at: nat, m: Machine)
      ensures consumed == at && Memory() == m
    {
      consumed, decoded, trailerBytes, state := at, m.decoded, m.trailerBytes, m.state;
    }

    method ReadSize(rest: bytes) returns (stop: Option<Verdict>)
      requires state == Size
      modifies this
      ensures var t := TakeTurn(rest, old(Memory()));
              stop == t.stop && consumed == old(consumed) + t.used && Memory() == t.next
    {
      var found := FindCrlf(rest, CHUNK_LINE_MAX);
      if found.NeedMore? {
        return Some(More);
      }
      if found.TooLong? || HasBareCrLf(rest[..found.len]) {
        return Some(Bad(400));
      }
      var size := ReadSizeLine(rest[..found.len]);
      if size.None? {
        return Some(Bad(400));
      }
      consumed := consumed + found.len + 2;
      state := if size.value == 0 then Trailer else Data(size.value);
      return None;
    }

    method ReadData(rest: bytes) returns (stop: Option<Verdict>)
      requires state.Data?
      modifies this
      ensures var t := TakeTurn(rest, old(Memory()));
              stop == t.stop && consumed == old(consumed) + t.used && Memory() == t.next
    {
      var remaining := state.remaining;
      var take := Min(remaining, |rest|);
      consumed, decoded := consumed + take, decoded + take;
      if take == remaining {
        state := DataCrlf;
        return None;
      }
      state := Data(remaining - take);
      return Some(More);
    }

    method ReadDataCrlf(rest: bytes) returns (stop: Option<Verdict>)
      requires state == DataCrlf
      modifies this
      ensures var t := TakeTurn(rest, old(Memory()));
              stop == t.stop && consumed == old(consumed) + t.used && Memory() == t.next
    {
      if |rest| < 2 {
        return Some(More);
      }
      if rest[..2] != CRLF {
        return Some(Bad(400));
      }
      consumed, state := consumed + 2, Size;
      return None;
    }

    /** `surfaced` says whether the line just consumed is handed on. */
    method ReadTrailer(rest: bytes) returns (stop: Option<Verdict>, surfaced: bool)
      requires state == Trailer
      modifies this
      ensures var t := TakeTurn(rest, old(Memory()));
              && stop == t.stop && consumed == old(consumed) + t.used && Memory() == t.next
              && (surfaced ==> t.used >= 2)
              && t.lines == if surfaced then [rest[..t.used - 2]] else []
    {
      surfaced := false;
      var found := FindCrlf(rest, TRAILER_LINE_MAX);
      if found.NeedMore? {
        return Some(More), false;
      }
      if found.TooLong? {
        return Some(Bad(431)), false;
      }
      trailerBytes := trailerBytes + found.len + 2;
      if trailerBytes > TRAILER_MAX {
        return Some(Bad(431)), false;
      }
      var line := rest[..found.len];
      consumed := consumed + found.len + 2;
      if HasBareCrLf(line) {
        return Some(Bad(400)), false;
      }
      if line == [] {
        state := Done;
      } else {
        match SplitTrailer(line) {
          case None => return Some(Bad(400)), false;
          case Some(field) => surfaced := !ForbiddenTrailer(field.name);
        }
      }
      return None, surfaced;
    }

    /** One iteration of the loop; at most one span of each kind is reported. */
    method TakeOne(body: bytes) returns (stop: Option<Verdict>, span: Option<Span>, line: Option<Span>)
      requires consumed <= |body|
      modifies this
      ensures var t := TakeTurn(body[old(consumed)..], old(Memory()));
              && stop == t.stop && consumed == old(consumed) + t.used <= |body| && Memory() == t.next
              && Reports(body, span, t.payload)
              && (span.Some? ==> span.value == Span(old(consumed), consumed))
              && (if line.Some? then line.value.lo <= line.value.hi <= |body| && t.lines == [Slice(body, line.value)]
                  else t.lines == [])
    {
      hide TakeTurn, ParseSizeLine, FindCrlf;
      TurnReports(body[consumed..], Machine(decoded, trailerBytes, state));
      span, line := None, None;
      var at, rest := consumed, body[consumed..];
      match state {
        case Done => stop := Some(Complete);
        case Size => stop := ReadSize(rest);
        case Data(_) =>
          stop := ReadData(rest);
          if at < consumed {
            span := Some(Span(at, consumed));
            assert rest[..consumed - at] == body[at..consumed];
          }
        case DataCrlf => stop := ReadDataCrlf(rest);
        case Trailer =>
          var surfaced;
          stop, surfaced := ReadTrailer(rest);
          if surfaced {
            line := Some(Span(at, consumed - 2));
            assert rest[..consumed - 2 - at] == body[at..consumed - 2];
          }
      }
    }

    method Loop(body: bytes) returns (verdict: Verdict, spans: seq<Span>, lines: seq<Span>)
      requires consumed <= |body|
      modifies this
      ensures Scanned(body, old(consumed), old(Memory()), verdict, consumed, Memory(), spans, lines)
    {
      hide TakeTurn, Run, Gather, Pieces, Reports, Slice;
      spans, lines := [], [];
      GatherNothing(body);
      ghost var c0, m0 := consumed, Memory();
      Empties(Run(body[c0..], m0).payload);
      Empties(Run(body[c0..], m0).lines);
      while true
        invariant c0 <= consumed <= |body|
        invariant Within(body, spans) && Within(body, lines) && Ascending(spans, c0, consumed)
        invariant Run(body[c0..], m0) ==
                  Then(SoFar(consumed - c0, Memory(), body, spans, lines), Run(body[consumed..], Memory()))
        decreases |body| - consumed, if state.Data? then 1 else 0
      {
        ghost var at, m, before := consumed, Memory(), SoFar(consumed - c0, Memory(), body, spans, lines);
        var stop, span, line := TakeOne(body);
        ghost var t := TakeTurn(body[at..], m);
        TurnTaken(body, at, m);
        spans := Push(body, spans, span, t.payload, c0, at, consumed);
        lines := PushLine(body, lines, line, t.lines);
        if stop.Some? {
          return stop.value, spans, lines;
        }
        ThenThen(before, t, SoFar(consumed - c0, Memory(), body, spans, lines), Run(body[consumed..], t.next));
      }
    }

    /**
      Advance over `body` from where the previous call stopped, reporting payload
      spans and surfaced trailer lines as positions in `body`.
    */
    method Advance(body: bytes) returns (verdict: Verdict, spans: seq<Span>, lines: seq<Span>)
      modifies this
      ensures if old(state) != Done && old(consumed) <= |body|
              then Scanned(body, old(consumed), old(Memory()), verdict, consumed, Memory(), spans, lines)
              else verdict == (if old(state) == Done then Complete else Bad(400)) && spans == [] && lines == []
                   && consumed == old(consumed) && Memory() == old(Memory())
    {
      if state == Done {
        return Complete, [], [];
      }
      if consumed > |body| {
        return Bad(400), [], [];
      }
      verdict, spans, lines := Loop(body);
    }
  }

  /** What one resumption of the scan did: the run over the unread bytes, told in positions. */
  ghost predicate Scanned(body: bytes, from: nat, m: Machine, verdict: Verdict, to: nat, end: Machine,
                          spans: seq<Span>, lines: seq<Span>) {
    && from <= to <= |body|
    && Within(body, spans) && Within(body, lines) && Ascending(spans, from, to)
    && Run(body[from..], m) == Outcome(verdict, to - from, end, Gather(body, spans), Pieces(body, lines))
  }

  function Slice(body: bytes, s: Span): bytes
    requires s.lo <= s.hi <= |body|
  {
    body[s.lo..s.hi]
  }

  /** The span, if any, covers exactly `bs`; no span means no bytes. */
  predicate Reports(body: bytes, span: Option<Span>, bs: bytes) {
    if span.Some? then span.value.lo <= span.value.hi <= |body| && Slice(body, span.value) == bs else bs == []
  }

  ghost function SoFar(used: nat, m: Machine, body: bytes, spans: seq<Span>, lines: seq<Span>): Turn
    requires Within(body, spans) && Within(body, lines)
  {
    Turn(used, m, Gather(body, spans), Pieces(body, lines), None)
  }

  method Push(body: bytes, spans: seq<Span>, span: Option<Span>, ghost bs: bytes, ghost lo: nat, ghost mid: nat,
              ghost hi: nat)
    returns (r: seq<Span>)
    requires Within(body, spans) && Reports(body, span, bs)
    requires Ascending(spans, lo, mid) && mid <= hi && (span.Some? ==> span.value == Span(mid, hi))
    ensures Within(body, r) && Ascending(r, lo, hi) && Gather(body, r) == Gather(body, spans) + bs
  {
    if span.Some? {
      GatherPush(body, spans, span.value);
      return spans + [span.value];
    }
    Empties(Gather(body, spans));
    return spans;
  }

  method PushLine(body: bytes, lines: seq<Span>, line: Option<Span>, ghost ls: seq<bytes>) returns (r: seq<Span>)
    requires Within(body, lines)
    requires if line.Some? then line.value.lo <= line.value.hi <= |body| && ls == [Slice(body, line.value)]
             else ls == []
    ensures Within(body, r) && Pieces(body, r) == Pieces(body, lines) + ls
  {
    if line.Some? {
      GatherPush(body, lines, line.value);
      return lines + [line.value];
    }
    Empties(Pieces(body, lines));
    return lines;
  }

  lemma {:induction false} TurnTaken(body: bytes, at: nat, m: Machine)
    requires at <= |body|
    ensures var t := TakeTurn(body[at..], m);
            if t.stop.Some? then Run(body[at..], m) == Outcome(t.stop.value, t.used, t.next, t.payload, t.lines)
            else Run(body[at..], m) == Then(t, Run(body[at + t.used..], t.next))
  {
    hide TakeTurn;
    DropDrop(body, at, TakeTurn(body[at..], m).used);
  }

  // ----- the copying decoder

  datatype Decoded = Decoded(entity: bytes, trailers: seq<Field>)

  /** What a wire holding exactly one chunked message decodes to. */
  function Decode(wire: bytes): Option<Decoded> {
    var r := Run(wire, INIT);
    if r.verdict == Complete && r.used == |wire| then
      match Fields(r.lines)
      case Some(fs) => Some(Decoded(r.payload, fs))
      case None => None
    else None
  }

  /** Only incompleteness, malformation or bytes left over make a decode fail; the trailers never do. */
  lemma {:induction false} DecodeIsRun(wire: bytes)
    ensures var r := Run(wire, INIT);
            && (Decode(wire).Some? <==> r.verdict == Complete && r.used == |wire|)
            && (Decode(wire).Some? ==>
                  Decode(wire).value.entity == r.payload && Fields(r.lines) == Some(Decode(wire).value.trailers))
  {
    hide Run;
    OnlySurfacedLines(wire, INIT);
  }

  /** An extent the scanner declared always decodes, to what the scanner walked over. */
  lemma {:induction false} DeclaredExtentDecodes(body: bytes)
    requires Run(body, INIT).verdict == Complete
    ensures var r := Run(body, INIT);
            && Decode(body[..r.used]).Some?
            && Decode(body[..r.used]).value.entity == r.payload
            && Fields(r.lines) == Some(Decode(body[..r.used]).value.trailers)
  {
    hide Run;
    hide G.Render, G.WellFormed;
    var msg := G.MessageShape(body, INIT);
    var wire, after := G.Render(msg), body[Run(body, INIT).used..];
    G.RenderIsAccepted(msg, []);
    Empties(wire);
    Halves(wire, after);
    TakeSplit(body, |wire|, |after|);
    assert body == wire + after;
    G.RenderIsAccepted(msg, after);
    DecodeIsRun(wire);
  }

  /** The grammar round trip: a rendering decodes to the entity and the permitted trailers, split. */
  lemma {:induction false} DecodeRender(msg: G.Message)
    requires G.WellFormed(msg)
    ensures Fields(G.Permitted(msg.trailers)).Some?
    ensures Decode(G.Render(msg)) == Some(Decoded(G.Entity(msg.chunks), Fields(G.Permitted(msg.trailers)).value))
  {
    hide Run;
    G.RenderIsAccepted(msg, []);
    Empties(G.Render(msg));
    DecodeIsRun(G.Render(msg));
  }

  lemma {:induction false} FieldsPointwise(lines: seq<bytes>, fs: seq<Field>)
    requires |fs| == |lines| && forall k :: 0 <= k < |lines| ==> SplitTrailer(lines[k]) == Some(fs[k])
    ensures Fields(lines) == Some(fs)
    decreases |lines|
  {
    hide SplitTrailer;
    if lines != [] {
      FieldsPointwise(lines[1..], fs[1..]);
      assert fs == [fs[0]] + fs[1..];
    }
  }

  method SplitAll(lines: seq<bytes>) returns (r: Option<seq<Field>>)
    ensures r == Fields(lines)
  {
    var fs := [];
    for i := 0 to |lines|
      invariant |fs| == i && forall k :: 0 <= k < i ==> SplitTrailer(lines[k]) == Some(fs[k])
    {
      match SplitTrailer(lines[i]) {
        case None =>
          assert !IsTrailer(lines[i]);
          return None;
        case Some(f) => fs := fs + [f];
      }
    }
    FieldsPointwise(lines, fs);
    return Some(fs);
  }

  /** The entity while it is built: a single span stays a borrow of the wire. */
  datatype Entity =
    | Empty
    | Borrowed(span: Span)
    | Stitched(copy: bytes)

  predicate Holds(wire: bytes, e: Entity, bs: bytes) {
    match e
    case Empty => bs == []
    case Borrowed(s) => s.lo <= s.hi <= |wire| && wire[s.lo..s.hi] == bs
    case Stitched(v) => v == bs
  }

  /** The payload in one piece; only a second span makes it a copy. */
  method Stitch(wire: bytes, spans: seq<Span>) returns (entity: bytes)
    requires Within(wire, spans)
    ensures entity == Gather(wire, spans)
  {
    var e := Empty;
    for i := 0 to |spans|
      invariant Holds(wire, e, GatherTo(wire, spans, i))
    {
      var s := spans[i];
      e := match e
        case Empty => Borrowed(s)
        case Borrowed(first) => Stitched(wire[first.lo..first.hi] + wire[s.lo..s.hi])
        case Stitched(v) => Stitched(v + wire[s.lo..s.hi]);
    }
    entity := match e
      case Empty => []
      case Borrowed(s) => wire[s.lo..s.hi]
      case Stitched(v) => v;
  }

  method DecodeWire(wire: bytes) returns (r: Option<Decoded>)
    ensures r == Decode(wire)
  {
    hide Run, Gather, Pieces, Decode;
    DecodeIsRun(wire);
    var scan := new ChunkScan();
    assert wire[0..] == wire;
    var verdict, spans, lines := scan.Advance(wire);
    if verdict != Complete || scan.consumed != |wire| {
      return None;
    }
    var entity := Stitch(wire, spans);
    var trailers := SplitAll(Pieces(wire, lines));
    if trailers.None? {
      return None;
    }
    return Some(Decoded(entity, trailers.value));
  }

  // ----- the in-place compactor

  /** Where the entity lies in the compacted wire, and the trailer lines copied out of it. */
  datatype Compacted = Compacted(start: nat, len: nat, trailerLines: seq<bytes>)

  /** Move `[lo, hi)` down to `dest`; the destination does not overtake the source. */
  method CopyDown(a: array<byte>, lo: nat, hi: nat, dest: nat)
    requires dest <= lo <= hi <= a.Length
    modifies a
    ensures a[dest..dest + (hi - lo)] == old(a[lo..hi])
    ensures forall p :: 0 <= p < dest || hi <= p < a.Length ==> a[p] == old(a[p])
  {
    ghost var was := a[..];
    for i := 0 to hi - lo
      invariant forall p :: 0 <= p < dest || lo + i <= p < a.Length ==> a[p] == was[p]
      invariant a[dest..dest + i] == was[lo..lo + i]
    {
      a[dest + i] := a[lo + i];
      assert a[dest..dest + i] == was[lo..lo + i];
    }
  }

  /** Close the gaps between the spans, in place; returns where the last one now ends. */
  method Squeeze(wire: array<byte>, spans: seq<Span>) returns (end: nat)
    requires spans != [] && Ascending(spans, 0, wire.Length)
    modifies wire
    ensures Within(old(wire[..]), spans)
    ensures spans[0].lo <= end <= wire.Length && wire[spans[0].lo..end] == Gather(old(wire[..]), spans)
  {
    ghost var w := wire[..];
    var start := spans[0].lo;
    end := spans[0].hi;
    Empties(Slice(w, spans[0]));
    assert GatherTo(w, spans, 1) == GatherTo(w, spans, 0) + Slice(w, spans[0]);
    for i := 1 to |spans|
      invariant start <= end <= spans[i - 1].hi <= wire.Length
      invariant wire[start..end] == GatherTo(w, spans, i)
      invariant forall p :: spans[i - 1].hi <= p < wire.Length ==> wire[p] == w[p]
    {
      var s := spans[i];
      assert wire[s.lo..s.hi] == Slice(w, s);
      end := Append(wire, start, end, s);
    }
  }

  /** Move one span down behind the bytes gathered so far. */
  method Append(wire: array<byte>, start: nat, end: nat, s: Span) returns (newEnd: nat)
    requires start <= end <= s.lo <= s.hi <= wire.Length
    modifies wire
    ensures newEnd == end + (s.hi - s.lo) && wire[start..newEnd] == old(wire[start..end] + wire[s.lo..s.hi])
    ensures forall p :: s.hi <= p < wire.Length ==> wire[p] == old(wire[p])
  {
    CopyDown(wire, s.lo, s.hi, end);
    newEnd := end + (s.hi - s.lo);
    assert wire[start..end] == old(wire[start..end]);
  }

  /**
    De-chunk inside the buffer. Succeeds on exactly the wires the copying decoder
    accepts, with the same entity and trailers, and leaves a refused wire alone.
  */
  method Compact(wire: array<byte>) returns (r: Option<Compacted>)
    modifies wire
    ensures r.Some? <==> Decode(old(wire[..])).Some?
    ensures r.Some? ==>
              && r.value.start + r.value.len <= wire.Length
              && wire[r.value.start..r.value.start + r.value.len] == Decode(old(wire[..])).value.entity
              && Fields(r.value.trailerLines) == Some(Decode(old(wire[..])).value.trailers)
              && r.value.len == Run(old(wire[..]), INIT).end.decoded
    ensures r.None? ==> wire[..] == old(wire[..])
  {
    hide Run;
    var w := wire[..];
    DecodeIsRun(w);
    var scan := new ChunkScan();
    assert w[0..] == w;
    var verdict, spans, lines := scan.Advance(w);
    if verdict != Complete || scan.consumed != |w| {
      return None;
    }
    if spans == [] {
      return Some(Compacted(0, 0, Pieces(w, lines)));
    }
    var end := Squeeze(wire, spans);
    return Some(Compacted(spans[0].lo, end - spans[0].lo, Pieces(w, lines)));
  }
}
