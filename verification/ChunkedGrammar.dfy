/**
  The chunked-body grammar of section 7.1 of RFC 9112, written as rendering: what
  a sender emits. It shares nothing with the scan loop but the line caps and the
  two line readers, and the scanner is proved to accept exactly this language.
*/
module ChunkedGrammar {
  import opened Bytes
  import opened Chunked

  /** A chunk: its size line as sent, and its data. */
  datatype Chunk = Chunk(line: bytes, data: bytes)

  /** A whole chunked body: the chunks, the zero-size line, and the trailer field lines. */
  datatype Message = Message(chunks: seq<Chunk>, last: bytes, trailers: seq<bytes>)

  predicate GoodSizeLine(line: bytes, size: nat) {
    |line| <= CHUNK_LINE_MAX && !HasBareCrLf(line) && ParseSizeLine(line) == Some(size)
  }

  predicate GoodChunk(c: Chunk) {
    c.data != [] && GoodSizeLine(c.line, |c.data|)
  }

  predicate GoodTrailer(line: bytes) {
    line != [] && |line| <= TRAILER_LINE_MAX && !HasBareCrLf(line) && IsTrailer(line)
  }

  predicate WellFormed(msg: Message) {
    && (forall i :: 0 <= i < |msg.chunks| ==> GoodChunk(msg.chunks[i]))
    && GoodSizeLine(msg.last, 0)
    && (forall i :: 0 <= i < |msg.trailers| ==> GoodTrailer(msg.trailers[i]))
    && |RenderTrailers(msg.trailers)| <= TRAILER_MAX
  }

  function RenderChunk(c: Chunk): bytes {
    c.line + CRLF + (c.data + CRLF)
  }

  function RenderChunks(cs: seq<Chunk>): bytes {
    if cs == [] then [] else RenderChunk(cs[0]) + RenderChunks(cs[1..])
  }

  function RenderTrailers(ts: seq<bytes>): bytes {
    if ts == [] then CRLF else ts[0] + CRLF + RenderTrailers(ts[1..])
  }

  function Render(msg: Message): bytes {
    RenderChunks(msg.chunks) + (msg.last + CRLF + RenderTrailers(msg.trailers))
  }

  /** The entity: the chunks' data in order. */
  function Entity(cs: seq<Chunk>): bytes {
    if cs == [] then [] else cs[0].data + Entity(cs[1..])
  }

  /** The trailer lines handed on: all but those with a forbidden name, in order. */
  function Permitted(ts: seq<bytes>): seq<bytes> {
    if ts == [] then []
    else (if Surfaced(ts[0]) then [ts[0]] else []) + Permitted(ts[1..])
  }

  // ----- size lines, as a grammar of their own

  const LOWER_DIGITS: string := "0123456789abcdef"
  const UPPER_DIGITS: string := "0123456789ABCDEF"

  /** The character of the hex digit `d`, in either case. */
  predicate IsHexOf(b: byte, d: nat) {
    d < 16 && (b == LOWER_DIGITS[d] as int || b == UPPER_DIGITS[d] as int)
  }

  /** A hex numeral of `n`: the case of each digit is free, and so are leading zeros. */
  predicate Denotes(digits: bytes, n: nat) {
    if digits == [] then n == 0
    else IsHexOf(digits[|digits| - 1], n % 16) && Denotes(digits[..|digits| - 1], n / 16)
  }

  /** A numeral of `n`, blanks, and nothing or an extension behind a semicolon. */
  predicate IsSizeLine(line: bytes, n: nat, digits: bytes, ows: bytes, ext: bytes) {
    && line == digits + ows + ext
    && digits != [] && Denotes(digits, n)
    && (forall i :: 0 <= i < |ows| ==> ows[i] == ' ' as int || ows[i] == '\t' as int)
    && (ext == [] || ext[0] == ';' as int)
  }

  /** The scanner's digits are the hex digits, with their values. */
  lemma {:induction false} HexDigitIff(b: byte, d: nat)
    ensures HexDigit(b) == Some(d) <==> IsHexOf(b, d)
  {
    var l, u := LOWER_DIGITS, UPPER_DIGITS;
    assert l[0] == '0' && l[1] == '1' && l[2] == '2' && l[3] == '3' && l[4] == '4' && l[5] == '5' && l[6] == '6';
    assert l[7] == '7' && l[8] == '8' && l[9] == '9' && l[10] == 'a' && l[11] == 'b' && l[12] == 'c';
    assert l[13] == 'd' && l[14] == 'e' && l[15] == 'f';
    assert u[0] == '0' && u[1] == '1' && u[2] == '2' && u[3] == '3' && u[4] == '4' && u[5] == '5' && u[6] == '6';
    assert u[7] == '7' && u[8] == '8' && u[9] == '9' && u[10] == 'A' && u[11] == 'B' && u[12] == 'C';
    assert u[13] == 'D' && u[14] == 'E' && u[15] == 'F';
  }

  lemma {:induction false} HexValuePrefix(s: bytes, t: bytes, n: nat)
    requires n <= |s|
    ensures HexValue(s + t, n) == HexValue(s, n)
  {
    if n > 0 {
      HexValuePrefix(s, t, n - 1);
    }
  }

  /** The value the scanner gives a run of digits is the number it is a numeral of. */
  lemma {:induction false} DenotesIff(digits: bytes, n: nat)
    ensures Denotes(digits, n) <==> AllHex(digits) && HexValue(digits, |digits|) == n
    decreases |digits|
  {
    hide HexDigit, IsHexOf;
    if digits != [] {
      var k := |digits| - 1;
      var front, last := digits[..k], digits[k];
      assert digits == front + [last];
      HexValuePrefix(front, [last], k);
      DenotesIff(front, n / 16);
      HexDigitIff(last, n % 16);
      assert AllHex(digits) <==> AllHex(front) && HexDigit(last).Some?;
      if HexDigit(last).Some? {
        OneDigitMore(HexValue(front, k), HexDigit(last).value, n);
      }
    }
  }

  lemma {:induction false} OneDigitMore(v: nat, d: nat, n: nat)
    requires d < 16
    ensures 16 * v + d == n <==> v == n / 16 && d == n % 16
  {
  }

  lemma {:induction false} NumeralIsPlain(digits: bytes, n: nat)
    requires Denotes(digits, n)
    ensures !HasBareCrLf(digits)
  {
    DenotesIff(digits, n);
    hide Denotes;
    assert forall i :: 0 <= i < |digits| ==> HexDigit(digits[i]).Some?;
  }

  /** A line of the grammar reads as its number, and only an overflow fails. */
  lemma {:induction false} SizeLineReads(line: bytes, n: nat, digits: bytes, ows: bytes, ext: bytes)
    requires IsSizeLine(line, n, digits, ows, ext)
    ensures ParseSizeLine(line) == if n <= USIZE_MAX then Some(n) else None
  {
    DenotesIff(digits, n);
    hide Denotes;
    var d, w := |digits|, |digits| + |ows|;
    assert forall i :: 0 <= i < d ==> line[i] == digits[i];
    assert forall i :: d <= i < w ==> line[i] == ows[i - d];
    assert ext != [] ==> line[w] == ext[0];
    assert forall i :: 0 <= i < d ==> HexDigit(line[i]).Some?;
    assert d < |line| ==> HexDigit(line[d]).None?;
    assert HexRun(line, 0) == d;
    assert forall i :: d <= i < w ==> IsOws(line[i]);
    assert w < |line| ==> !IsOws(line[w]);
    assert SkipOws(line, d) == w;
    assert line == digits + (ows + ext);
    HexValuePrefix(digits, ows + ext, d);
  }

  /** Every line that reads as a size is a line of the grammar with that number. */
  lemma {:induction false} SizeLineShape(line: bytes) returns (digits: bytes, ows: bytes, ext: bytes)
    requires ParseSizeLine(line).Some?
    ensures IsSizeLine(line, ParseSizeLine(line).value, digits, ows, ext)
  {
    var d := HexRun(line, 0);
    var w := SkipOws(line, d);
    digits, ows, ext := line[..d], line[d..w], line[w..];
    var n := ParseSizeLine(line).value;
    assert d > 0 && n == HexValue(line, d) && (ext == [] || ext[0] == SEMICOLON);
    assert AllHex(digits);
    OwsAre(line, d, w);
    hide ParseSizeLine, HexRun, SkipOws, AllHex, HexDigit;
    Thirds(line, d, w);
    HexValuePrefix(digits, line[d..], d);
    DenotesIff(digits, n);
    hide Denotes, HexValue;
  }

  lemma {:induction false} OwsAre(line: bytes, d: nat, w: nat)
    requires d <= w <= |line| && forall k :: d <= k < w ==> IsOws(line[k])
    ensures forall i :: 0 <= i < w - d ==> line[d..w][i] == ' ' as int || line[d..w][i] == '\t' as int
  {
    assert forall i :: 0 <= i < w - d ==> line[d..w][i] == line[d + i];
  }

  lemma {:induction false} Thirds(s: bytes, i: nat, j: nat)
    requires i <= j <= |s|
    ensures s == s[..i] + s[i..j] + s[j..] && s == s[..i] + s[i..]
  {
  }

  // ----- trailer lines, likewise

  predicate AllBlank(s: bytes) {
    forall i :: 0 <= i < |s| ==> IsAsciiSpace(s[i])
  }

  /** A name, a colon, and a value with white space around it that is not part of it. */
  predicate IsTrailerLine(line: bytes, name: bytes, before: bytes, value: bytes, after: bytes) {
    && line == name + [':' as int] + (before + value + after)
    && IsToken(name) && AllBlank(before) && AllBlank(after)
    && (value != [] ==> !IsAsciiSpace(value[0]) && !IsAsciiSpace(value[|value| - 1]))
    && (forall i :: 0 <= i < |value| ==> IsFieldByte(value[i]))
  }

  /** A line of the grammar splits into its name and its bare value. */
  lemma {:induction false} TrailerReads(line: bytes, name: bytes, before: bytes, value: bytes, after: bytes)
    requires IsTrailerLine(line, name, before, value, after)
    ensures SplitTrailer(line) == Some(Field(name, value))
  {
    var n := |name|;
    assert forall i :: 0 <= i < n ==> line[i] == name[i] && IsTokenByte(line[i]);
    assert line[n] == COLON && FindFrom(line, COLON, 0) == Some(n);
    assert line[..n] == name && line[n + 1..] == before + value + after;
    hide FindFrom, IsTokenByte;
    TrimAround(before, value, after);
    FieldBreakIff(value);
  }

  lemma {:induction false} TrimShape(s: bytes) returns (before: bytes, after: bytes)
    ensures s == before + Trim(s) + after && AllBlank(before) && AllBlank(after)
    ensures Trim(s) != [] ==> !IsAsciiSpace(Trim(s)[0]) && !IsAsciiSpace(Trim(s)[|Trim(s)| - 1])
  {
    hide Trim, AllBlank, IsAsciiSpace;
    var lo, hi := TrimIs(s);
    before, after := s[..lo], s[hi..];
    Thirds(s, lo, hi);
    BlankSlice(s, 0, lo);
    BlankSlice(s, hi, |s|);
    assert s[0..lo] == before && s[hi..|s|] == after;
  }

  lemma {:induction false} TrimIs(s: bytes) returns (lo: nat, hi: nat)
    ensures lo <= hi <= |s| && Trim(s) == s[lo..hi]
    ensures (forall k :: 0 <= k < lo ==> IsAsciiSpace(s[k])) && (forall k :: hi <= k < |s| ==> IsAsciiSpace(s[k]))
    ensures lo < hi ==> !IsAsciiSpace(s[lo]) && !IsAsciiSpace(s[hi - 1])
  {
    hide IsAsciiSpace;
    lo := SkipSpace(s, 0);
    hi := DropSpace(s, lo, |s|);
  }

  lemma {:induction false} BlankSlice(s: bytes, i: nat, j: nat)
    requires i <= j <= |s| && forall k :: i <= k < j ==> IsAsciiSpace(s[k])
    ensures AllBlank(s[i..j])
  {
    hide IsAsciiSpace;
  }

  /** Every line that splits is a line of the grammar. */
  lemma {:induction false} TrailerShape(line: bytes) returns (before: bytes, after: bytes)
    requires SplitTrailer(line).Some?
    ensures var f := SplitTrailer(line).value; IsTrailerLine(line, f.name, before, f.value, after)
  {
    hide Trim, HasFieldBreak, AllBlank, IsToken;
    var f := SplitTrailer(line).value;
    var n := FindFrom(line, COLON, 0).value;
    var rest := line[n + 1..];
    before, after := TrimShape(rest);
    FieldBreakIff(f.value);
    hide FindFrom;
    assert line == f.name + [COLON] + rest;
  }

  /** The names that are never handed on, in any case. */
  lemma {:induction false} ForbiddenIff(name: bytes)
    ensures ForbiddenTrailer(name) <==>
              || EqIgnoreCase(name, Ascii("transfer-encoding")) || EqIgnoreCase(name, Ascii("content-length"))
              || EqIgnoreCase(name, Ascii("host")) || EqIgnoreCase(name, Ascii("cookie"))
              || EqIgnoreCase(name, Ascii("authorization")) || EqIgnoreCase(name, Ascii("proxy-authorization"))
  {
    hide EqIgnoreCase, Ascii;
    var all := FORBIDDEN_TRAILERS;
    assert all[0] == Ascii("transfer-encoding") && all[1] == Ascii("content-length") && all[2] == Ascii("host");
    assert all[3] == Ascii("authorization") && all[4] == Ascii("proxy-authorization") && all[5] == Ascii("cookie");
  }

  // ----- every rendering is accepted

  /** One size line, scanned. */
  lemma {:induction false} SizeLineTurn(line: bytes, size: nat, tail: bytes, m: Machine)
    requires m.state == Size && GoodSizeLine(line, size)
    ensures var s := line + CRLF + tail;
            && TakeTurn(s, m) == Turn(|line| + 2, m.(state := if size == 0 then Trailer else Data(size)), [], [], None)
            && s[|line| + 2..] == tail
  {
    FindCrlfOfLine(line, tail, CHUNK_LINE_MAX);
    Halves(line + CRLF, tail);
    AppendAppend(line, CRLF, tail);
    Halves(line, CRLF + tail);
  }

  /** A chunk and the bytes after it, as one stretch of the run. */
  function ChunkTurn(c: Chunk, m: Machine): Turn {
    Turn(|RenderChunk(c)|, m.(decoded := m.decoded + |c.data|), c.data, [], None)
  }

  lemma {:induction false} ChunkDataTurns(data: bytes, tail: bytes, m: Machine)
    requires m.state == Data(|data|)
    ensures Run(data + CRLF + tail, m) ==
            Then(Turn(|data| + 2, m.(decoded := m.decoded + |data|, state := Size), data, [], None),
                 Run(tail, m.(decoded := m.decoded + |data|, state := Size)))
  {
    hide TakeTurn;
    var next := m.(decoded := m.decoded + |data|, state := DataCrlf);
    var t := Turn(|data|, next, data, [], None);
    var u := Turn(2, next.(state := Size), [], [], None);
    DataThenCrlf(data, tail, m);
    var r := Run(tail, u.next);
    assert Run(CRLF + tail, next) == Then(u, r);
    assert Run(data + CRLF + tail, m) == Then(t, Then(u, r));
    Empties(data);
    ThenThen(t, u, Turn(|data| + 2, u.next, data, [], None), r);
  }

  lemma {:induction false} DataThenCrlf(data: bytes, tail: bytes, m: Machine)
    requires m.state == Data(|data|)
    ensures var next := m.(decoded := m.decoded + |data|, state := DataCrlf);
            && TakeTurn(data + CRLF + tail, m) == Turn(|data|, next, data, [], None)
            && (data + CRLF + tail)[|data|..] == CRLF + tail
            && TakeTurn(CRLF + tail, next) == Turn(2, next.(state := Size), [], [], None)
            && (CRLF + tail)[2..] == tail
  {
    AppendAppend(data, CRLF, tail);
    Halves(data, CRLF + tail);
    Halves(CRLF, tail);
  }

  lemma {:induction false} ChunkRuns(c: Chunk, tail: bytes, m: Machine)
    requires m.state == Size && GoodChunk(c)
    ensures Run(RenderChunk(c) + tail, m) == Then(ChunkTurn(c, m), Run(tail, m.(decoded := m.decoded + |c.data|)))
  {
    hide TakeTurn;
    var rest := c.data + CRLF + tail;
    AppendAppend(c.line + CRLF, c.data + CRLF, tail);
    SizeLineTurn(c.line, |c.data|, rest, m);
    var t := TakeTurn(c.line + CRLF + rest, m);
    ChunkDataTurns(c.data, tail, t.next);
    var after := m.(decoded := m.decoded + |c.data|);
    var u := Turn(|c.data| + 2, after, c.data, [], None);
    assert Run(c.line + CRLF + rest, m) == Then(t, Then(u, Run(tail, after)));
    Empties(c.data);
    ThenThen(t, u, ChunkTurn(c, m), Run(tail, after));
  }

  lemma {:induction false} ChunksRun(cs: seq<Chunk>, tail: bytes, m: Machine)
    requires m.state == Size && forall i :: 0 <= i < |cs| ==> GoodChunk(cs[i])
    ensures var after := m.(decoded := m.decoded + |Entity(cs)|);
            Run(RenderChunks(cs) + tail, m) ==
            Then(Turn(|RenderChunks(cs)|, after, Entity(cs), [], None), Run(tail, after))
    decreases |cs|
  {
    hide Run, RenderChunk, GoodChunk;
    if cs == [] {
      Empties(tail);
      Empties(Run(tail, m).payload);
      Empties(Run(tail, m).lines);
    } else {
      var c, rest := cs[0], RenderChunks(cs[1..]);
      AppendAppend(RenderChunk(c), rest, tail);
      ChunkRuns(c, rest + tail, m);
      var t := ChunkTurn(c, m);
      ChunksRun(cs[1..], tail, t.next);
      var after := m.(decoded := m.decoded + |Entity(cs)|);
      Empties<bytes>([]);
      ThenThen(t, Turn(|rest|, after, Entity(cs[1..]), [], None), Turn(|RenderChunks(cs)|, after, Entity(cs), [], None),
               Run(tail, after));
    }
  }

  lemma {:induction false} TrailerLineTurn(line: bytes, tail: bytes, m: Machine)
    requires m.state == Trailer && GoodTrailer(line) && m.trailerBytes + |line| + 2 <= TRAILER_MAX
    ensures var s := line + CRLF + tail;
            && TakeTurn(s, m) == Turn(|line| + 2, m.(trailerBytes := m.trailerBytes + |line| + 2), [],
                                      if Surfaced(line) then [line] else [], None)
            && s[|line| + 2..] == tail
  {
    FindCrlfOfLine(line, tail, TRAILER_LINE_MAX);
    Halves(line + CRLF, tail);
    AppendAppend(line, CRLF, tail);
    Halves(line, CRLF + tail);
  }

  lemma {:induction false} LastLineTurn(tail: bytes, m: Machine)
    requires m.state == Trailer && m.trailerBytes + 2 <= TRAILER_MAX
    ensures TakeTurn(CRLF + tail, m) == Turn(2, Machine(m.decoded, m.trailerBytes + 2, Done), [], [], None)
  {
    FindCrlfOfLine([], tail, TRAILER_LINE_MAX);
    Empties(CRLF);
    assert !HasBareCrLf([]);
    assert (CRLF + tail)[..0] == [];
  }

  lemma {:induction false} DoneRuns(rest: bytes, m: Machine)
    requires m.state == Done
    ensures Run(rest, m) == Outcome(Complete, 0, m, [], [])
  {
  }

  lemma {:induction false} TrailersRun(ts: seq<bytes>, tail: bytes, m: Machine)
    requires m.state == Trailer && m.trailerBytes + |RenderTrailers(ts)| <= TRAILER_MAX
    requires forall i :: 0 <= i < |ts| ==> GoodTrailer(ts[i])
    ensures Run(RenderTrailers(ts) + tail, m) ==
            Outcome(Complete, |RenderTrailers(ts)|,
                    Machine(m.decoded, m.trailerBytes + |RenderTrailers(ts)|, Done), [], Permitted(ts))
    decreases |ts|
  {
    hide TakeTurn, GoodTrailer, Surfaced;
    if ts == [] {
      LastLineTurn(tail, m);
      DoneRuns((CRLF + tail)[2..], Machine(m.decoded, m.trailerBytes + 2, Done));
    } else {
      var rest := RenderTrailers(ts[1..]) + tail;
      AppendAppend(ts[0] + CRLF, RenderTrailers(ts[1..]), tail);
      TrailerLineTurn(ts[0], rest, m);
      TrailersRun(ts[1..], tail, TakeTurn(ts[0] + CRLF + rest, m).next);
    }
  }

  /**
    Any list of non-empty chunks and capped trailers, however its lines are spelled,
    is scanned to its exact extent whatever follows it, and reads as its entity and
    its permitted trailers.
  */
  lemma {:induction false} RenderIsAccepted(msg: Message, following: bytes)
    requires WellFormed(msg)
    ensures var r := Run(Render(msg) + following, INIT);
            && r.verdict == Complete
            && r.used == |Render(msg)|
            && r.payload == Entity(msg.chunks)
            && r.lines == Permitted(msg.trailers)
  {
    hide TakeTurn;
    var close := RenderTrailers(msg.trailers);
    var tail := msg.last + CRLF + (close + following);
    AppendAppend(msg.last + CRLF, close, following);
    AppendAppend(RenderChunks(msg.chunks), msg.last + CRLF + close, following);
    ChunksRun(msg.chunks, tail, INIT);
    var m := INIT.(decoded := |Entity(msg.chunks)|);
    SizeLineTurn(msg.last, 0, close + following, m);
    var t := TakeTurn(tail, m);
    TrailersRun(msg.trailers, following, t.next);
    assert Run(tail, m) == Then(t, Run(close + following, t.next));
    Empties(Entity(msg.chunks));
    Empties(Permitted(msg.trailers));
  }

  // ----- and nothing else is

  lemma {:induction false} TrailerTurnShape(rest: bytes, m: Machine)
    requires m.state == Trailer && TakeTurn(rest, m).stop.None?
    ensures var t := TakeTurn(rest, m);
            && t.used >= 2 && CrlfAt(rest, t.used - 2)
            && t.next.trailerBytes == m.trailerBytes + t.used <= TRAILER_MAX
            && (t.next.state == Done ==> t.used == 2)
            && (t.next.state != Done ==> t.next.state == Trailer && GoodTrailer(rest[..t.used - 2]))
  {
  }

  lemma {:induction false} TrailersShape(rest: bytes, m: Machine) returns (ts: seq<bytes>)
    requires m.state == Trailer && Run(rest, m).verdict == Complete
    ensures rest[..Run(rest, m).used] == RenderTrailers(ts)
    ensures m.trailerBytes + |RenderTrailers(ts)| <= TRAILER_MAX
    ensures forall i :: 0 <= i < |ts| ==> GoodTrailer(ts[i])
    decreases |rest|
  {
    hide Run, TakeTurn, GoodTrailer, CrlfAt;
    StopsInDone(rest, m);
    TrailerTurnShape(rest, m);
    var t := TakeTurn(rest, m);
    var tail := rest[t.used..];
    LineThen(rest, t.used - 2, Run(tail, t.next).used);
    if t.next.state == Done {
      ts := [];
      DoneRuns(tail, t.next);
      Empties(CRLF);
      Empties(rest[..0] + CRLF);
    } else {
      var later := TrailersShape(tail, t.next);
      ts := [rest[..t.used - 2]] + later;
      assert ts[1..] == later;
    }
  }

  lemma {:induction false} LineThen(s: bytes, i: nat, j: nat)
    requires CrlfAt(s, i) && i + 2 + j <= |s|
    ensures s[..i + 2 + j] == s[..i] + CRLF + s[i + 2..][..j]
  {
    LineSplit(s, i);
    TakeSplit(s, i + 2, j);
  }

  /** A run that completes does not stop on its first turn unless it was already done. */
  lemma {:induction false} StopsInDone(rest: bytes, m: Machine)
    requires m.state != Done && Run(rest, m).verdict == Complete
    ensures var t := TakeTurn(rest, m);
            && t.stop.None?
            && Run(rest, m) == Then(t, Run(rest[t.used..], t.next))
  {
  }

  /** A chunk at the front of an accepted body, and what the run does after it. */
  lemma {:induction false} ChunkShape(rest: bytes, m: Machine) returns (c: Chunk, tail: bytes)
    requires m.state == Size && Run(rest, m).verdict == Complete
    requires TakeTurn(rest, m).next.state.Data?
    ensures GoodChunk(c) && rest == RenderChunk(c) + tail && |tail| < |rest|
  {
    hide Run, TakeTurn, GoodSizeLine, CrlfAt;
    StopsInDone(rest, m);
    SizeTurnShape(rest, m);
    var t := TakeTurn(rest, m);
    var line, body := rest[..t.used - 2], rest[t.used..];
    var n := DataShape(body, t.next);
    c, tail := Chunk(line, body[..n]), body[n + 2..];
    ChunkAssembles(rest, t.used - 2, n);
  }

  lemma {:induction false} ChunkAssembles(rest: bytes, i: nat, n: nat)
    requires CrlfAt(rest, i) && i + n + 4 <= |rest| && rest[i + 2..][n..][..2] == CRLF
    ensures rest == rest[..i] + CRLF + (rest[i + 2..][..n] + CRLF) + rest[i + 2..][n + 2..]
  {
    var body := rest[i + 2..];
    LineSplit(rest, i);
    TakeSplit(rest, i + 2, |body|);
    TakeSplit(body, n, 2);
    TakeSplit(body, n + 2, |body| - n - 2);
    AppendAppend(rest[..i] + CRLF, body[..n] + CRLF, body[n + 2..]);
  }

  /** A chunk's data is all there and closed by its CRLF when the run completes. */
  lemma {:induction false} DataShape(body: bytes, m: Machine) returns (n: nat)
    requires m.state.Data? && Run(body, m).verdict == Complete
    ensures n == m.state.remaining && n + 2 <= |body| && body[n..][..2] == CRLF
  {
    n := m.state.remaining;
    StopsInDone(body, m);
    var u := TakeTurn(body, m);
    StopsInDone(body[n..], u.next);
  }

  lemma {:induction false} SizeTurnShape(rest: bytes, m: Machine)
    requires m.state == Size && TakeTurn(rest, m).stop.None?
    ensures var t := TakeTurn(rest, m);
            && t.used >= 2 && CrlfAt(rest, t.used - 2)
            && (t.next.state.Data? || t.next.state == Trailer)
            && t.next == m.(state := t.next.state)
            && GoodSizeLine(rest[..t.used - 2], if t.next.state.Data? then t.next.state.remaining else 0)
            && (t.next.state.Data? ==> t.next.state.remaining > 0)
            && t.payload == [] && t.lines == []
  {
  }

  lemma {:induction false} MessageShape(rest: bytes, m: Machine) returns (msg: Message)
    requires m.state == Size && m.trailerBytes == 0 && Run(rest, m).verdict == Complete
    ensures WellFormed(msg) && rest[..Run(rest, m).used] == Render(msg)
    decreases |rest|
  {
    hide Run, TakeTurn, GoodSizeLine, GoodChunk, RenderChunk, GoodTrailer, CrlfAt;
    StopsInDone(rest, m);
    SizeTurnShape(rest, m);
    var t := TakeTurn(rest, m);
    if t.next.state == Trailer {
      var tail := rest[t.used..];
      var ts := TrailersShape(tail, t.next);
      msg := Message([], rest[..t.used - 2], ts);
      LineThen(rest, t.used - 2, Run(tail, t.next).used);
      Empties(msg.last + CRLF + RenderTrailers(ts));
    } else {
      var c, tail := ChunkShape(rest, m);
      ChunkRuns(c, tail, m);
      var later := MessageShape(tail, m.(decoded := m.decoded + |c.data|));
      msg := Prepend(c, later);
      PrependRenders(c, later);
      Halves(RenderChunk(c), tail);
      TakeSplit(rest, |RenderChunk(c)|, |Render(later)|);
    }
  }

  function Prepend(c: Chunk, msg: Message): Message {
    Message([c] + msg.chunks, msg.last, msg.trailers)
  }

  lemma {:induction false} PrependRenders(c: Chunk, msg: Message)
    requires GoodChunk(c) && WellFormed(msg)
    ensures WellFormed(Prepend(c, msg)) && Render(Prepend(c, msg)) == RenderChunk(c) + Render(msg)
  {
    hide GoodSizeLine, GoodChunk, RenderChunk, GoodTrailer;
    assert ([c] + msg.chunks)[1..] == msg.chunks;
    AppendAppend(RenderChunk(c), RenderChunks(msg.chunks), msg.last + CRLF + RenderTrailers(msg.trailers));
  }

  ghost predicate IsRendering(wire: bytes) {
    exists msg :: WellFormed(msg) && Render(msg) == wire
  }

  /** The scanner declares an extent exactly when the grammar generates the bytes it covers. */
  lemma {:induction false} ScanAcceptsExactlyTheGrammar(body: bytes, extent: nat)
    requires extent <= |body|
    ensures Run(body, INIT).verdict == Complete && Run(body, INIT).used == extent <==> IsRendering(body[..extent])
  {
    hide TakeTurn;
    if Run(body, INIT).verdict == Complete && Run(body, INIT).used == extent {
      var msg := MessageShape(body, INIT);
      assert WellFormed(msg) && Render(msg) == body[..extent];
    }
    if IsRendering(body[..extent]) {
      var msg :| WellFormed(msg) && Render(msg) == body[..extent];
      RenderIsAccepted(msg, body[extent..]);
      assert body == Render(msg) + body[extent..];
    }
  }

  /** Two bodies that start the same bytes are the same body: no reader can cut them differently. */
  lemma {:induction false} GrammarIsUnambiguous(a: Message, b: Message, afterA: bytes, afterB: bytes)
    requires WellFormed(a) && WellFormed(b)
    requires Render(a) + afterA == Render(b) + afterB
    ensures Render(a) == Render(b)
    ensures Entity(a.chunks) == Entity(b.chunks) && Permitted(a.trailers) == Permitted(b.trailers)
  {
    hide TakeTurn;
    RenderIsAccepted(a, afterA);
    RenderIsAccepted(b, afterB);
    assert Render(a) == (Render(a) + afterA)[..|Render(a)|];
    assert Render(b) == (Render(b) + afterB)[..|Render(b)|];
  }

  // ----- what is refused, and with which status

  /**
    A size line that is none, one without an end within its cap, and anything but a line break behind a chunk are
    refused with 400.
  */
  lemma {:induction false} ChunksRefused(line: bytes, tail: bytes, m: Machine)
    ensures m.state == Size && !HasBareCrLf(line) && |line| <= 256 && ParseSizeLine(line).None? ==>
              Run(line + CRLF + tail, m).verdict == Bad(400)
    ensures m.state == Size && |tail| >= 258 && (forall i :: 0 <= i <= 256 ==> !CrlfAt(tail, i)) ==>
              Run(tail, m).verdict == Bad(400)
    ensures m.state == DataCrlf && |tail| >= 2 && tail[..2] != CRLF ==> Run(tail, m).verdict == Bad(400)
  {
    if |line| <= 256 && !HasBareCrLf(line) {
      FindCrlfOfLine(line, tail, CHUNK_LINE_MAX);
      Halves(line, CRLF + tail);
      AppendAppend(line, CRLF, tail);
    }
    hide ParseSizeLine, HasBareCrLf;
  }

  /**
    In the trailers, a line without an end within its cap and a section over its cap are refused with 431, and a
    line that is no field with 400.
  */
  lemma {:induction false} TrailersRefused(line: bytes, tail: bytes, m: Machine)
    requires m.state == Trailer
    ensures |tail| >= 1026 && (forall i :: 0 <= i <= 1024 ==> !CrlfAt(tail, i)) ==> Run(tail, m).verdict == Bad(431)
    ensures |line| <= 1024 && !HasBareCrLf(line) && m.trailerBytes + |line| + 2 > 8192 ==>
              Run(line + CRLF + tail, m).verdict == Bad(431)
    ensures |line| <= 1024 && !HasBareCrLf(line) && m.trailerBytes + |line| + 2 <= 8192
            && line != [] && !IsTrailer(line) ==>
              Run(line + CRLF + tail, m).verdict == Bad(400)
  {
    if |line| <= 1024 && !HasBareCrLf(line) {
      FindCrlfOfLine(line, tail, TRAILER_LINE_MAX);
      Halves(line, CRLF + tail);
      AppendAppend(line, CRLF, tail);
    }
    hide IsTrailer, HasBareCrLf, Surfaced;
  }
}
