/** What a head's fields decide: how its body is framed, and whether the connection may be kept. */
module HttpHead {
  import opened Bytes
  import opened HttpTypes
  import opened Decimals

  datatype Version = Http10 | Http11

  type Header = (bytes, bytes)

  const COMMA: byte := 44

  predicate Is(h: Header, name: string) {
    EqIgnoreCase(h.0, Ascii(name))
  }

  // ----- lists

  function Trims(parts: seq<bytes>): seq<bytes> {
    seq(|parts|, i requires 0 <= i < |parts| => Trim(parts[i]))
  }

  /** The elements of a comma-separated list, trimmed. */
  function Elements(value: bytes): seq<bytes> {
    Trims(Split(value, COMMA, 0, 0))
  }

  /** The elements of every field line of that name, in order: repeated lines are one list. */
  function ListOf(headers: seq<Header>, name: string): seq<bytes> {
    if headers == [] then []
    else
      var last := headers[|headers| - 1];
      ListOf(headers[..|headers| - 1], name) + if Is(last, name) then Elements(last.1) else []
  }

  function ValuesOf(headers: seq<Header>, name: string): seq<bytes> {
    if headers == [] then []
    else
      var last := headers[|headers| - 1];
      ValuesOf(headers[..|headers| - 1], name) + if Is(last, name) then [last.1] else []
  }

  function NonEmpty(es: seq<bytes>): seq<bytes> {
    if es == [] then [] else NonEmpty(es[..|es| - 1]) + if es[|es| - 1] == [] then [] else [es[|es| - 1]]
  }

  /** The transfer codings in the order they were applied; empty elements are ignored. */
  function Codings(headers: seq<Header>): seq<bytes> {
    NonEmpty(ListOf(headers, "transfer-encoding"))
  }

  // ----- lengths

  /** Digits and nothing else, denoting a number that fits. */
  function ContentLength(v: bytes): (r: Option<nat>)
    ensures r.Some? <==> v != [] && (forall i :: 0 <= i < |v| ==> IsDigit(v[i])) && ValueOf(v, |v|) <= USIZE_MAX
    ensures r.Some? ==> r.value == ValueOf(v, |v|)
  {
    if v != [] && (forall i :: 0 <= i < |v| ==> IsDigit(v[i])) && ValueOf(v, |v|) <= USIZE_MAX then
      DigitsArePositive(v, |v|); Some(ValueOf(v, |v|))
    else None
  }

  lemma {:induction false} DigitsArePositive(v: bytes, n: nat)
    requires n <= |v| && forall i :: 0 <= i < |v| ==> IsDigit(v[i])
    ensures ValueOf(v, n) >= 0
  {
    if n > 0 {
      DigitsArePositive(v, n - 1);
    }
  }

  /**
    A length as the response writer prints it reads back as that length, or is refused exactly when it does
    not fit.
  */
  lemma {:induction false} LengthReads(n: nat)
    ensures ContentLength(Decimal(n)) == if n <= USIZE_MAX then Some(n) else None
  {
    DecimalReads(n);
  }

  /** A number only grows as digits are added, so an overflow on the way is one at the end. */
  lemma {:induction false} ValueGrows(v: bytes, i: nat, j: nat)
    requires i <= j <= |v| && forall k :: 0 <= k < |v| ==> IsDigit(v[k])
    ensures ValueOf(v, i) <= ValueOf(v, j)
    decreases j
  {
    DigitsArePositive(v, i);
    if i < j {
      ValueGrows(v, i, j - 1);
    }
  }

  method ParseContentLength(v: bytes) returns (r: Option<nat>)
    ensures r == ContentLength(v)
  {
    if v == [] {
      return None;
    }
    var n: nat := 0;
    for i := 0 to |v|
      invariant n == ValueOf(v, i) && n <= USIZE_MAX && forall k :: 0 <= k < i ==> IsDigit(v[k])
    {
      if !IsDigit(v[i]) {
        return None;
      }
      var next := n * 10 + (v[i] - 48);
      assert next == ValueOf(v, i + 1);
      if next > USIZE_MAX {
        if forall k :: 0 <= k < |v| ==> IsDigit(v[k]) {
          ValueGrows(v, i + 1, |v|);
        }
        return None;
      }
      n := next;
    }
    r := Some(n);
  }

  // ----- the body

  function Chunkeds(es: seq<bytes>): nat {
    if es == [] then 0 else Chunkeds(es[..|es| - 1]) + if EqIgnoreCase(es[|es| - 1], Ascii("chunked")) then 1 else 0
  }

  predicate EndsChunked(es: seq<bytes>) {
    es != [] && EqIgnoreCase(es[|es| - 1], Ascii("chunked"))
  }

  /** The framing rules of section 6.3 of RFC 9112, over the fields as whole lists. */
  function BodyFrom(headers: seq<Header>, version: Version): BodyVerdict {
    var lengths, codings := ValuesOf(headers, "content-length"), Codings(headers);
    if |lengths| > 1 then BodyBad(400)
    else if ValuesOf(headers, "transfer-encoding") != [] then
      if version == Http10 then BodyBad(400)
      else if Chunkeds(codings) != 1 || !EndsChunked(codings) then BodyBad(400)
      else if lengths != [] && ContentLength(lengths[0]).None? then BodyBad(400)
      else if |codings| > 1 then BodyBad(501)
      else BodyOk(ChunkFramed)
    else if lengths == [] then BodyOk(Sized(0))
    else
      match ContentLength(lengths[0])
      case None => BodyBad(400)
      case Some(n) => BodyOk(Sized(n))
  }

  lemma {:induction false} NonEmptySnoc(es: seq<bytes>, e: bytes)
    ensures NonEmpty(es + [e]) == NonEmpty(es) + if e == [] then [] else [e]
  {
    assert (es + [e])[..|es|] == es;
  }

  lemma {:induction false} NonEmptyAppend(a: seq<bytes>, b: seq<bytes>)
    ensures NonEmpty(a + b) == NonEmpty(a) + NonEmpty(b)
    decreases |b|
  {
    if b == [] {
      Empties(a);
      Empties(NonEmpty(a));
    } else {
      var front, last := b[..|b| - 1], b[|b| - 1];
      assert a + b == a + front + [last];
      NonEmptySnoc(a + front, last);
      NonEmptyAppend(a, front);
      AppendAppend(NonEmpty(a), NonEmpty(front), if last == [] then [] else [last]);
    }
  }

  lemma {:induction false} ChunkedsSnoc(es: seq<bytes>, e: bytes)
    ensures Chunkeds(es + [e]) == Chunkeds(es) + if EqIgnoreCase(e, Ascii("chunked")) then 1 else 0
  {
    hide EqIgnoreCase, Ascii;
    assert (es + [e])[..|es|] == es;
  }

  lemma {:induction false} NamesDiffer(h: Header)
    ensures Is(h, "transfer-encoding") ==> !Is(h, "content-length") && !Is(h, "connection")
    ensures Is(h, "content-length") ==> !Is(h, "connection")
  {
    var a, b, c := Ascii("transfer-encoding"), Ascii("content-length"), Ascii("connection");
    assert |Lower(a)| == 17 && |Lower(b)| == 14 && |Lower(c)| == 10;
  }

  /** What one pass has gathered about the transfer codings. */
  ghost predicate Gathered(es: seq<bytes>, chunked: nat, other: nat, lastChunked: bool) {
    chunked == Chunkeds(es) && chunked + other == |es| && lastChunked == EndsChunked(es)
  }

  lemma {:induction false} GatherOne(es: seq<bytes>, t: bytes, c: nat, o: nat, l: bool)
    requires Gathered(es, c, o, l)
    ensures if EqIgnoreCase(t, Ascii("chunked")) then Gathered(es + [t], c + 1, o, true)
            else Gathered(es + [t], c, o + 1, false)
  {
    hide EqIgnoreCase, Ascii;
    ChunkedsSnoc(es, t);
  }

  lemma {:induction false} NothingIsEmpty()
    ensures NonEmpty([]) == []
  {
  }

  /** One list's elements, counted. */
  method CountCodings(parts: seq<bytes>, chunked: nat, other: nat, lastChunked: bool, ghost es: seq<bytes>)
    returns (c: nat, o: nat, l: bool)
    requires Gathered(es, chunked, other, lastChunked)
    ensures Gathered(es + NonEmpty(Trims(parts)), c, o, l)
  {
    hide EqIgnoreCase, Ascii, Trim, NonEmpty, Gathered;
    c, o, l := chunked, other, lastChunked;
    Empties(es);
    NothingIsEmpty();
    ghost var trims := Trims(parts);
    for i := 0 to |parts|
      invariant Gathered(es + NonEmpty(trims[..i]), c, o, l)
    {
      var t := Trim(parts[i]);
      assert trims[..i + 1] == trims[..i] + [t];
      NonEmptySnoc(trims[..i], t);
      Empties(NonEmpty(trims[..i]));
      if t != [] {
        AppendAppend(es, NonEmpty(trims[..i]), [t]);
        GatherOne(es + NonEmpty(trims[..i]), t, c, o, l);
        if EqIgnoreCase(t, Ascii("chunked")) {
          c, l := c + 1, true;
        } else {
          o, l := o + 1, false;
        }
      }
    }
    assert trims[..|parts|] == trims;
  }

  /** What one pass over the fields knows. */
  datatype Survey = Survey(any: bool, chunked: nat, other: nat, lastChunked: bool, length: Option<bytes>,
                           duplicate: bool)

  ghost predicate Surveyed(headers: seq<Header>, s: Survey) {
    && Gathered(Codings(headers), s.chunked, s.other, s.lastChunked)
    && (s.any <==> ValuesOf(headers, "transfer-encoding") != [])
    && var ls := ValuesOf(headers, "content-length");
       s.duplicate == (|ls| > 1) && s.length == if ls == [] then None else Some(ls[0])
  }

  lemma {:induction false} ValuesStep(headers: seq<Header>, h: Header, name: string)
    ensures ValuesOf(headers + [h], name) == ValuesOf(headers, name) + if Is(h, name) then [h.1] else []
  {
    hide Is;
    assert (headers + [h])[..|headers|] == headers;
  }

  /** One more field. */
  method SurveyField(s: Survey, h: Header, ghost headers: seq<Header>) returns (r: Survey)
    requires Surveyed(headers, s)
    ensures Surveyed(headers + [h], r)
  {
    hide Is, NonEmpty, Gathered, Ascii, Split;
    NamesDiffer(h);
    CodingsStep(headers, h);
    ValuesStep(headers, h, "transfer-encoding");
    ValuesStep(headers, h, "content-length");
    Empties(Codings(headers));
    Empties(ValuesOf(headers, "transfer-encoding"));
    Empties(ValuesOf(headers, "content-length"));
    r := s;
    if Is(h, "transfer-encoding") {
      var c, o, l := CountCodings(Split(h.1, COMMA, 0, 0), s.chunked, s.other, s.lastChunked, Codings(headers));
      r := s.(any := true, chunked := c, other := o, lastChunked := l);
    } else if Is(h, "content-length") {
      r := if s.length.Some? then s.(duplicate := true) else s.(length := Some(h.1));
    }
  }

  /** The fields in one pass, with counters and flags. */
  method BodyOf(headers: seq<Header>, version: Version) returns (r: BodyVerdict)
    ensures r == BodyFrom(headers, version)
  {
    hide Codings, ValuesOf, Chunkeds, EndsChunked;
    var s := Survey(false, 0, 0, false, None, false);
    SurveyedNothing();
    for i := 0 to |headers|
      invariant Surveyed(headers[..i], s)
    {
      assert headers[..i + 1] == headers[..i] + [headers[i]];
      s := SurveyField(s, headers[i], headers[..i]);
    }
    assert headers[..|headers|] == headers;
    if s.duplicate {
      return BodyBad(400);
    }
    if s.any {
      if version == Http10 || s.chunked != 1 || !s.lastChunked {
        return BodyBad(400);
      }
      if s.length.Some? {
        var n := ParseContentLength(s.length.value);
        if n.None? {
          return BodyBad(400);
        }
      }
      return if s.other > 0 then BodyBad(501) else BodyOk(ChunkFramed);
    }
    if s.length.None? {
      return BodyOk(Sized(0));
    }
    var n := ParseContentLength(s.length.value);
    r := if n.Some? then BodyOk(Sized(n.value)) else BodyBad(400);
  }

  lemma {:induction false} SurveyedNothing()
    ensures Surveyed([], Survey(false, 0, 0, false, None, false))
  {
    GatheredNothing();
    hide Gathered, Codings, Is;
  }

  lemma {:induction false} GatheredNothing()
    ensures Gathered(Codings([]), 0, 0, false)
  {
  }

  lemma {:induction false} CodingsStep(headers: seq<Header>, h: Header)
    ensures Codings(headers + [h]) == Codings(headers) + if Is(h, "transfer-encoding") then NonEmpty(Elements(h.1))
                                                         else []
  {
    hide Is, Elements, NonEmpty;
    assert (headers + [h])[..|headers|] == headers;
    var before := ListOf(headers, "transfer-encoding");
    Empties(before);
    Empties(NonEmpty(before));
    if Is(h, "transfer-encoding") {
      NonEmptyAppend(before, Elements(h.1));
    }
  }

  // ----- what the rules amount to

  /**
    Chunked framing is accepted exactly for one lone `chunked` coding on HTTP/1.1, next to at most one sound
    length.
  */
  lemma {:induction false} ChunkedExactlyWhen(headers: seq<Header>, version: Version)
    ensures var lengths, codings := ValuesOf(headers, "content-length"), Codings(headers);
            BodyFrom(headers, version) == BodyOk(ChunkFramed) <==>
              && version == Http11
              && |codings| == 1 && EqIgnoreCase(codings[0], Ascii("chunked"))
              && (lengths == [] || (|lengths| == 1 && ContentLength(lengths[0]).Some?))
    ensures BodyFrom(headers, version) == BodyOk(ChunkFramed) <==>
              && version == Http11 && OnlyChunked(ListOf(headers, "transfer-encoding"))
              && (Absent(headers, "content-length")
                  || exists i :: Alone(headers, "content-length", i) && ContentLength(headers[i].1).Some?)
  {
    hide EqIgnoreCase, Ascii, ValuesOf, ListOf, NonEmpty, OnlyChunked, Absent, Alone, ContentLength;
    OnlyChunkedIff(ListOf(headers, "transfer-encoding"));
    LinesWith(headers, "content-length");
    var codings := Codings(headers);
    CodingsComeFromLines(headers);
    if |codings| == 1 {
      assert codings[..0] == [];
      assert Chunkeds(codings[..0]) == 0;
    }
  }

  lemma {:induction false} CodingsComeFromLines(headers: seq<Header>)
    ensures Codings(headers) != [] ==> ValuesOf(headers, "transfer-encoding") != []
    decreases |headers|
  {
    hide Is, Elements;
    if headers != [] {
      var front, last := headers[..|headers| - 1], headers[|headers| - 1];
      assert headers == front + [last];
      CodingsComeFromLines(front);
      CodingsStep(front, last);
    }
  }

  /** No line has the name. */
  predicate Absent(headers: seq<Header>, name: string) {
    forall i :: 0 <= i < |headers| ==> !Is(headers[i], name)
  }

  /** Line `i` has the name, and no other line does. */
  predicate Alone(headers: seq<Header>, name: string, i: int) {
    0 <= i < |headers| && Is(headers[i], name) && forall j :: 0 <= j < |headers| && j != i ==> !Is(headers[j], name)
  }

  /** The values gathered under a name are those of its lines: none, the one, or several. */
  lemma {:induction false} LinesWith(headers: seq<Header>, name: string)
    ensures ValuesOf(headers, name) == [] <==> Absent(headers, name)
    ensures forall i :: Alone(headers, name, i) ==> ValuesOf(headers, name) == [headers[i].1]
    ensures |ValuesOf(headers, name)| == 1 ==> exists i :: Alone(headers, name, i)
    decreases |headers|
  {
    hide Is;
    if headers != [] {
      var front, last := headers[..|headers| - 1], headers[|headers| - 1];
      assert headers == front + [last];
      LinesWith(front, name);
      ValuesStep(front, last, name);
      assert Absent(headers, name) <==> Absent(front, name) && !Is(last, name);
      if |ValuesOf(headers, name)| == 1 {
        if Is(last, name) {
          assert Alone(headers, name, |front|);
        } else {
          var i :| Alone(front, name, i);
          assert Alone(headers, name, i);
        }
      }
      forall i | Alone(headers, name, i)
        ensures ValuesOf(headers, name) == [headers[i].1]
      {
        if i < |front| {
          assert Alone(front, name, i) && !Is(headers[|front|], name);
        } else {
          assert Absent(front, name);
        }
      }
    }
  }

  /**
    A length is the framing exactly where no line names a coding, and either no line names a length, which is
    then zero, or exactly one does, in digits that fit.
  */
  lemma {:induction false} SizedExactlyWhen(headers: seq<Header>, version: Version, n: nat)
    ensures BodyFrom(headers, version) == BodyOk(Sized(n)) <==>
              && Absent(headers, "transfer-encoding")
              && ((Absent(headers, "content-length") && n == 0)
                  || exists i :: Alone(headers, "content-length", i) && ContentLength(headers[i].1) == Some(n))
  {
    hide ValuesOf, Codings, Chunkeds, EndsChunked, ContentLength, Absent, Is;
    LinesWith(headers, "transfer-encoding");
    LinesWith(headers, "content-length");
    if |ValuesOf(headers, "content-length")| == 1 {
      var i :| Alone(headers, "content-length", i);
      assert ValuesOf(headers, "content-length") == [headers[i].1];
    }
  }

  lemma {:induction false} ChunkedsNone(es: seq<bytes>)
    ensures Chunkeds(es) == 0 <==> forall i :: 0 <= i < |es| ==> !EqIgnoreCase(es[i], Ascii("chunked"))
    decreases |es|
  {
    hide EqIgnoreCase, Ascii;
    if es != [] {
      var front := es[..|es| - 1];
      ChunkedsNone(front);
      assert forall i :: 0 <= i < |front| ==> es[i] == front[i];
    }
  }

  /**
    A coding that is not understood in front of a last and only `chunked` is refused with 501, and everything else
    that is refused with 400.
  */
  lemma {:induction false} RefusedExactlyWhen(headers: seq<Header>, version: Version)
    ensures var lengths, codings := ValuesOf(headers, "content-length"), Codings(headers);
            BodyFrom(headers, version) == BodyBad(501) <==>
              && version == Http11
              && |codings| > 1 && EqIgnoreCase(codings[|codings| - 1], Ascii("chunked"))
              && (forall i :: 0 <= i < |codings| - 1 ==> !EqIgnoreCase(codings[i], Ascii("chunked")))
              && (lengths == [] || (|lengths| == 1 && ContentLength(lengths[0]).Some?))
    ensures var b := BodyFrom(headers, version); b.BodyBad? ==> b.status == 501 || b.status == 400
  {
    hide EqIgnoreCase, Ascii, ValuesOf, ListOf, NonEmpty, ContentLength;
    var codings := Codings(headers);
    CodingsComeFromLines(headers);
    if codings != [] {
      ChunkedsNone(codings[..|codings| - 1]);
      assert forall i :: 0 <= i < |codings| - 1 ==> codings[..|codings| - 1][i] == codings[i];
    }
  }

  // ----- what a list holds

  /** An element of a list, with the white space around it. */
  datatype Element = Element(before: bytes, value: bytes, after: bytes)

  predicate GoodElement(e: Element) {
    && (forall i :: 0 <= i < |e.before| ==> IsAsciiSpace(e.before[i]))
    && (forall i :: 0 <= i < |e.after| ==> IsAsciiSpace(e.after[i]))
    && (forall i :: 0 <= i < |e.value| ==> e.value[i] != ',' as int)
    && (e.value != [] ==> !IsAsciiSpace(e.value[0]) && !IsAsciiSpace(e.value[|e.value| - 1]))
  }

  function ElementText(e: Element): bytes {
    e.before + e.value + e.after
  }

  /** The elements with a comma between each two. */
  function ListText(es: seq<Element>): bytes
    requires es != []
  {
    if |es| == 1 then ElementText(es[0]) else ListText(es[..|es| - 1]) + [',' as int] + ElementText(es[|es| - 1])
  }

  function Bare(es: seq<Element>): (r: seq<bytes>)
    ensures |r| == |es| && forall i :: 0 <= i < |es| ==> r[i] == es[i].value
  {
    seq(|es|, i requires 0 <= i < |es| => es[i].value)
  }

  /** A list reads as its elements, without the white space around them. */
  lemma {:induction false} ListReads(es: seq<Element>)
    requires es != [] && forall i :: 0 <= i < |es| ==> GoodElement(es[i])
    ensures Elements(ListText(es)) == Bare(es)
    decreases |es|
  {
    hide Trim, Split, GoodElement;
    var n := |es| - 1;
    ElementReads(es[n]);
    if n == 0 {
      assert es == [es[0]];
      assert Trims([ElementText(es[0])]) == [es[0].value];
    } else {
      var front := es[..n];
      ListReads(front);
      SplitMore(ListText(front), ElementText(es[n]), COMMA, 0, 0);
      var parts := Split(ListText(front), COMMA, 0, 0);
      assert Trims(parts + [ElementText(es[n])]) == Trims(parts) + [es[n].value];
      assert Bare(es) == Bare(front) + [es[n].value];
    }
  }

  lemma {:induction false} ElementReads(e: Element)
    requires GoodElement(e)
    ensures Trim(ElementText(e)) == e.value && Split(ElementText(e), COMMA, 0, 0) == [ElementText(e)]
    ensures forall i :: 0 <= i < |ElementText(e)| ==> ElementText(e)[i] != COMMA
  {
    var t := ElementText(e);
    assert Trim(t) == e.value by { TrimAround(e.before, e.value, e.after); }
    hide Trim;
    forall i | 0 <= i < |t| ensures t[i] != COMMA {
      ElementByte(e, i);
    }
    SplitAhead(t, COMMA, 0, 0, |t|);
    assert t[0..|t|] == t;
  }

  lemma {:induction false} ElementByte(e: Element, i: nat)
    requires GoodElement(e) && i < |ElementText(e)|
    ensures ElementText(e)[i] != COMMA
  {
    var n, m := |e.before|, |e.before| + |e.value|;
    if i < n {
      assert ElementText(e)[i] == e.before[i];
    } else if i < m {
      assert ElementText(e)[i] == e.value[i - n];
    } else {
      assert ElementText(e)[i] == e.after[i - m];
    }
  }

  // ----- names and tokens, letter by letter

  /** `b` spells the ASCII word `s`, in letters of either case. */
  predicate Spells(b: bytes, s: string) {
    |b| == |s| && forall i :: 0 <= i < |b| ==> s[i] as int < 128 && SameLetter(b[i], s[i] as int)
  }

  lemma {:induction false} SpellsIff(b: bytes, s: string)
    requires forall i :: 0 <= i < |s| ==> s[i] as int < 128
    ensures EqIgnoreCase(b, Ascii(s)) <==> Spells(b, s)
  {
    hide SameLetter, EqIgnoreCase;
    EqIgnoreCaseIff(b, Ascii(s));
  }

  /** Some line of that name has that word among its elements. */
  ghost predicate Listed(headers: seq<Header>, name: string, word: string) {
    exists i, j {:trigger Elements(headers[i].1)[j]} ::
      && 0 <= i < |headers| && Spells(headers[i].0, name)
      && 0 <= j < |Elements(headers[i].1)| && Spells(Elements(headers[i].1)[j], word)
  }

  lemma {:induction false} ListedIff(headers: seq<Header>, name: string, word: string)
    requires forall i :: 0 <= i < |name| ==> name[i] as int < 128
    requires forall i :: 0 <= i < |word| ==> word[i] as int < 128
    ensures HasToken(ListOf(headers, name), word) <==> Listed(headers, name, word)
    decreases |headers|
  {
    hide Spells, Elements, EqIgnoreCase, Ascii;
    if headers != [] {
      var front, last := headers[..|headers| - 1], headers[|headers| - 1];
      ListedIff(front, name, word);
      SpellsIff(last.0, name);
      var before, es := ListOf(front, name), Elements(last.1);
      forall j | 0 <= j < |es| ensures EqIgnoreCase(es[j], Ascii(word)) <==> Spells(es[j], word) {
        SpellsIff(es[j], word);
      }
      assert HasToken(before + es, word) <==> HasToken(before, word) || HasToken(es, word) by {
        HasEither(before, es, word);
      }
      assert Listed(headers, name, word) <==>
             Listed(front, name, word) || (Spells(last.0, name) && HasToken(es, word)) by {
        ListedEither(headers, name, word);
      }
      Empties(before);
    }
  }

  lemma {:induction false} HasEither(a: seq<bytes>, b: seq<bytes>, word: string)
    ensures HasToken(a + b, word) <==> HasToken(a, word) || HasToken(b, word)
  {
    hide EqIgnoreCase, Ascii;
    var c := a + b;
    assert forall i :: 0 <= i < |a| ==> c[i] == a[i];
    assert forall i :: 0 <= i < |b| ==> c[|a| + i] == b[i];
  }

  lemma {:induction false} ListedEither(headers: seq<Header>, name: string, word: string)
    requires headers != []
    requires var es := Elements(headers[|headers| - 1].1);
             forall j :: 0 <= j < |es| ==> (EqIgnoreCase(es[j], Ascii(word)) <==> Spells(es[j], word))
    ensures var front, last := headers[..|headers| - 1], headers[|headers| - 1];
            Listed(headers, name, word) <==>
              Listed(front, name, word) || (Spells(last.0, name) && HasToken(Elements(last.1), word))
  {
    hide Spells, Elements, EqIgnoreCase, Ascii;
    var front, last := headers[..|headers| - 1], headers[|headers| - 1];
    var es := Elements(last.1);
    if Listed(front, name, word) {
      var i, j :| && 0 <= i < |front| && Spells(front[i].0, name)
                  && 0 <= j < |Elements(front[i].1)| && Spells(Elements(front[i].1)[j], word);
      assert headers[i] == front[i] && Spells(Elements(headers[i].1)[j], word);
    }
    if Spells(last.0, name) && HasToken(es, word) {
      var j :| 0 <= j < |es| && EqIgnoreCase(es[j], Ascii(word));
      assert Spells(Elements(headers[|front|].1)[j], word);
    }
    if Listed(headers, name, word) {
      var i, j :| && 0 <= i < |headers| && Spells(headers[i].0, name)
                  && 0 <= j < |Elements(headers[i].1)| && Spells(Elements(headers[i].1)[j], word);
      if i < |front| {
        assert Spells(Elements(front[i].1)[j], word);
      } else {
        assert EqIgnoreCase(es[j], Ascii(word));
      }
    }
  }

  lemma {:induction false} AbsentIff(headers: seq<Header>, name: string)
    requires forall i :: 0 <= i < |name| ==> name[i] as int < 128
    ensures Absent(headers, name) <==> forall i :: 0 <= i < |headers| ==> !Spells(headers[i].0, name)
  {
    hide Spells, EqIgnoreCase, Ascii;
    forall i | 0 <= i < |headers| ensures Is(headers[i], name) <==> Spells(headers[i].0, name) {
      SpellsIff(headers[i].0, name);
    }
  }

  /**
    Line by line and letter by letter: the connection may be kept exactly when no `connection` line lists `close` and
    the version is 1.1 or one lists `keep-alive`; and when a head has both a length line and a coding line.
  */
  lemma {:induction false} DispositionIs(headers: seq<Header>, version: Version)
    ensures KeepAlive(headers, version) <==>
              && !Listed(headers, "connection", "close")
              && (version == Http11 || Listed(headers, "connection", "keep-alive"))
    ensures LengthAndCoding(headers) <==>
              && (exists i :: 0 <= i < |headers| && Spells(headers[i].0, "content-length"))
              && (exists i :: 0 <= i < |headers| && Spells(headers[i].0, "transfer-encoding"))
  {
    hide Listed, HasToken, ListOf, ValuesOf, Absent, Spells, Alone;
    ListedIff(headers, "connection", "close");
    ListedIff(headers, "connection", "keep-alive");
    AnyLine(headers, "content-length");
    AnyLine(headers, "transfer-encoding");
  }

  lemma {:induction false} AnyLine(headers: seq<Header>, name: string)
    requires forall i :: 0 <= i < |name| ==> name[i] as int < 128
    ensures ValuesOf(headers, name) != [] <==> exists i :: 0 <= i < |headers| && Spells(headers[i].0, name)
  {
    hide ValuesOf, Absent, Spells, Alone;
    LinesWith(headers, name);
    AbsentIff(headers, name);
  }

  /** Among elements, some of them empty, one and only one is not, and it spells `chunked`. */
  ghost predicate OnlyChunked(es: seq<bytes>) {
    exists k :: 0 <= k < |es| && Spells(es[k], "chunked") && forall m :: 0 <= m < |es| && m != k ==> es[m] == []
  }

  lemma {:induction false} OnlyChunkedIff(es: seq<bytes>)
    ensures OnlyChunked(es) <==> |NonEmpty(es)| == 1 && EqIgnoreCase(NonEmpty(es)[0], Ascii("chunked"))
    ensures NonEmpty(es) == [] <==> forall m :: 0 <= m < |es| ==> es[m] == []
    decreases |es|
  {
    hide EqIgnoreCase, Ascii, Spells;
    if es != [] {
      var front, last := es[..|es| - 1], es[|es| - 1];
      OnlyChunkedIff(front);
      SpellsIff(last, "chunked");
      hide OnlyChunked;
      assert forall m :: 0 <= m < |front| ==> es[m] == front[m];
      if last == [] {
        EmptyLast(es);
        Empties(NonEmpty(front));
      } else {
        LastIsOnly(es);
      }
    }
  }

  lemma {:induction false} EmptyLast(es: seq<bytes>)
    requires es != [] && es[|es| - 1] == []
    ensures OnlyChunked(es) <==> OnlyChunked(es[..|es| - 1])
  {
    hide Spells;
    var front, last := es[..|es| - 1], es[|es| - 1];
    ChunkedIsSome(last);
    assert forall m :: 0 <= m < |front| ==> es[m] == front[m];
    if OnlyChunked(es) {
      var k :| 0 <= k < |es| && Spells(es[k], "chunked") && forall m :: 0 <= m < |es| && m != k ==> es[m] == [];
      assert k < |front| && Spells(front[k], "chunked");
    }
    if OnlyChunked(front) {
      var k :| 0 <= k < |front| && Spells(front[k], "chunked")
               && forall m :: 0 <= m < |front| && m != k ==> front[m] == [];
      assert Spells(es[k], "chunked");
    }
  }

  lemma {:induction false} ChunkedIsSome(b: bytes)
    ensures Spells(b, "chunked") ==> b != []
  {
  }

  lemma {:induction false} LastIsOnly(es: seq<bytes>)
    requires es != [] && es[|es| - 1] != []
    requires NonEmpty(es[..|es| - 1]) == [] <==> forall m :: 0 <= m < |es| - 1 ==> es[m] == []
    requires Spells(es[|es| - 1], "chunked") <==> EqIgnoreCase(es[|es| - 1], Ascii("chunked"))
    ensures OnlyChunked(es) <==> |NonEmpty(es)| == 1 && EqIgnoreCase(NonEmpty(es)[0], Ascii("chunked"))
  {
    hide EqIgnoreCase, Ascii, Spells;
    var n := |es| - 1;
    var front := es[..n];
    assert forall m :: 0 <= m < n ==> es[m] == front[m];
    if OnlyChunked(es) {
      var k :| 0 <= k < |es| && Spells(es[k], "chunked") && forall m :: 0 <= m < |es| && m != k ==> es[m] == [];
      assert k == n;
      assert NonEmpty(front) == [];
    }
    if |NonEmpty(es)| == 1 && EqIgnoreCase(NonEmpty(es)[0], Ascii("chunked")) {
      assert NonEmpty(front) == [];
      assert Spells(es[n], "chunked");
    }
  }

  // ----- repeated lines are one list

  lemma {:induction false} SplitShift(pre: bytes, t: bytes, sep: byte, i: nat, j: nat)
    requires i <= j <= |t|
    ensures Split(pre + t, sep, |pre| + i, |pre| + j) == Split(t, sep, i, j)
    decreases |t| - j
  {
    var u := pre + t;
    assert u[|pre| + i..|pre| + j] == t[i..j];
    if j < |t| {
      assert u[|pre| + j] == t[j];
      if t[j] == sep {
        SplitShift(pre, t, sep, j + 1, j + 1);
      } else {
        SplitShift(pre, t, sep, i, j + 1);
      }
    }
  }

  lemma {:induction false} SplitBoth(s: bytes, t: bytes, sep: byte, i: nat, j: nat)
    requires i <= j <= |s|
    ensures Split(s + [sep] + t, sep, i, j) == Split(s, sep, i, j) + Split(t, sep, 0, 0)
    decreases |s| - j
  {
    var u := s + [sep] + t;
    if j == |s| {
      assert u[j] == sep && u[i..j] == s[i..j];
      SplitShift(s + [sep], t, sep, 0, 0);
    } else {
      assert u[j] == s[j] && u[i..j] == s[i..j];
      if s[j] == sep {
        SplitBoth(s, t, sep, j + 1, j + 1);
        AppendAppend([s[i..j]], Split(s, sep, j + 1, j + 1), Split(t, sep, 0, 0));
      } else {
        SplitBoth(s, t, sep, i, j + 1);
      }
    }
  }

  lemma {:induction false} ElementsCombine(v: bytes, w: bytes)
    ensures Elements(v + [COMMA] + w) == Elements(v) + Elements(w)
  {
    hide Trim, Split;
    SplitBoth(v, w, COMMA, 0, 0);
  }

  lemma {:induction false} ListStep(headers: seq<Header>, h: Header, name: string)
    ensures ListOf(headers + [h], name) == ListOf(headers, name) + if Is(h, name) then Elements(h.1) else []
  {
    hide Is, Elements;
    assert (headers + [h])[..|headers|] == headers;
  }

  lemma {:induction false} ListAppend(a: seq<Header>, b: seq<Header>, name: string)
    ensures ListOf(a + b, name) == ListOf(a, name) + ListOf(b, name)
    decreases |b|
  {
    hide Is, Elements;
    if b == [] {
      Empties(a);
      Empties(ListOf(a, name));
    } else {
      var front, last := b[..|b| - 1], b[|b| - 1];
      assert a + b == a + front + [last];
      ListAppend(a, front, name);
      ListStep(a + front, last, name);
      AppendAppend(ListOf(a, name), ListOf(front, name), if Is(last, name) then Elements(last.1) else []);
    }
  }

  /** Two lines of a list field anywhere side by side read as one line with both values, comma between them. */
  lemma {:induction false} RepeatedLinesCombine(before: seq<Header>, name: bytes, v: bytes, w: bytes,
                                                after: seq<Header>, field: string)
    ensures ListOf(before + [(name, v), (name, w)] + after, field) ==
            ListOf(before + [(name, v + [COMMA] + w)] + after, field)
  {
    hide Is, Elements;
    ListAppend(before + [(name, v), (name, w)], after, field);
    ListAppend(before + [(name, v + [COMMA] + w)], after, field);
    assert before + [(name, v), (name, w)] == before + [(name, v)] + [(name, w)];
    ListStep(before + [(name, v)], (name, w), field);
    ListStep(before, (name, v), field);
    ListStep(before, (name, v + [COMMA] + w), field);
    ElementsCombine(v, w);
    SameName(name, v, w, field);
    AppendAppend(ListOf(before, field), Elements(v), Elements(w));
    Empties(ListOf(before, field));
  }

  lemma {:induction false} SameName(name: bytes, v: bytes, w: bytes, field: string)
    ensures Is((name, v), field) == Is((name, w), field) == Is((name, v + [COMMA] + w), field)
  {
  }

  // ----- keeping the connection

  predicate HasToken(es: seq<bytes>, token: string) {
    exists i :: 0 <= i < |es| && EqIgnoreCase(es[i], Ascii(token))
  }

  /** `close` wins on both versions; without it HTTP/1.1 persists, and HTTP/1.0 only when asked. */
  predicate KeepAlive(headers: seq<Header>, version: Version) {
    var es := ListOf(headers, "connection");
    !HasToken(es, "close") && (version == Http11 || HasToken(es, "keep-alive"))
  }

  /** Both a length and a coding: two readers could frame it differently. */
  predicate LengthAndCoding(headers: seq<Header>) {
    ValuesOf(headers, "content-length") != [] && ValuesOf(headers, "transfer-encoding") != []
  }

  lemma {:induction false} HasTokenSnoc(es: seq<bytes>, e: bytes, token: string)
    ensures HasToken(es + [e], token) <==> HasToken(es, token) || EqIgnoreCase(e, Ascii(token))
  {
    hide EqIgnoreCase, Ascii;
    var all := es + [e];
    assert all[|es|] == e;
    assert forall i :: 0 <= i < |es| ==> all[i] == es[i];
  }

  lemma {:induction false} TokensDiffer(t: bytes)
    ensures !(EqIgnoreCase(t, Ascii("close")) && EqIgnoreCase(t, Ascii("keep-alive")))
  {
    assert |Lower(Ascii("close"))| == 5 && |Lower(Ascii("keep-alive"))| == 10;
  }

  method ReadConnection(parts: seq<bytes>, close: bool, keep: bool, ghost es: seq<bytes>) returns (c: bool, k: bool)
    requires close == HasToken(es, "close") && keep == HasToken(es, "keep-alive")
    ensures c == HasToken(es + Trims(parts), "close") && k == HasToken(es + Trims(parts), "keep-alive")
  {
    hide EqIgnoreCase, Ascii, Trim, HasToken;
    c, k := close, keep;
    Empties(es);
    ghost var trims := Trims(parts);
    for i := 0 to |parts|
      invariant c == HasToken(es + trims[..i], "close") && k == HasToken(es + trims[..i], "keep-alive")
    {
      var t := Trim(parts[i]);
      assert trims[..i + 1] == trims[..i] + [t];
      AppendAppend(es, trims[..i], [t]);
      HasTokenSnoc(es + trims[..i], t, "close");
      HasTokenSnoc(es + trims[..i], t, "keep-alive");
      TokensDiffer(t);
      if EqIgnoreCase(t, Ascii("close")) {
        c := true;
      } else if EqIgnoreCase(t, Ascii("keep-alive")) {
        k := true;
      }
    }
    assert trims[..|parts|] == trims;
  }

  /** Both facts in a single pass over the fields. */
  method ResponseDisposition(headers: seq<Header>, version: Version) returns (keepAlive: bool, conflict: bool)
    ensures keepAlive == KeepAlive(headers, version) && conflict == LengthAndCoding(headers)
  {
    hide Is, HasToken, Split, Trims;
    var close, keep, length, coding := false, false, false, false;
    NoTokens();
    for i := 0 to |headers|
      invariant close == HasToken(ListOf(headers[..i], "connection"), "close")
      invariant keep == HasToken(ListOf(headers[..i], "connection"), "keep-alive")
      invariant length == (ValuesOf(headers[..i], "content-length") != [])
      invariant coding == (ValuesOf(headers[..i], "transfer-encoding") != [])
    {
      var h := headers[i];
      assert headers[..i + 1] == headers[..i] + [h];
      NamesDiffer(h);
      ListStep(headers[..i], h, "connection");
      ValuesStep(headers[..i], h, "content-length");
      ValuesStep(headers[..i], h, "transfer-encoding");
      Empties(ListOf(headers[..i], "connection"));
      if Is(h, "connection") {
        close, keep := ReadConnection(Split(h.1, COMMA, 0, 0), close, keep, ListOf(headers[..i], "connection"));
      } else if Is(h, "content-length") {
        length := true;
      } else if Is(h, "transfer-encoding") {
        coding := true;
      }
    }
    assert headers[..|headers|] == headers;
    keepAlive, conflict := !close && (version == Http11 || keep), length && coding;
  }

  lemma {:induction false} NoTokens()
    ensures !HasToken([], "close") && !HasToken([], "keep-alive")
  {
  }
}
