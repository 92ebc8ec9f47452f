/** Response heads: what may be put in one, how it is written, and that it reads back as what was put in. */
module HttpResponse {
  import opened Bytes
  import opened Decimals
  import D = HttpDate

  type Header = (bytes, bytes)

  datatype ConnHeader = NoConn | KeepAlive | CloseConn

  /** A response under construction, with a body of bytes. */
  datatype Response = Response(status: nat, fields: seq<Header>, body: bytes, headLen: Option<nat>)

  // ----- building

  /** Three digits, and final: anything else becomes a 500. */
  function FinalStatus(status: nat): (r: nat)
    ensures 200 <= r <= 999
  {
    if 200 <= status <= 999 then status else 500
  }

  /** The fields the codec writes itself. */
  predicate CodecOwned(name: bytes) {
    || EqIgnoreCase(name, Ascii("content-length")) || EqIgnoreCase(name, Ascii("connection"))
    || EqIgnoreCase(name, Ascii("date")) || EqIgnoreCase(name, Ascii("transfer-encoding"))
  }

  predicate HeaderPairOk(name: bytes, value: bytes) {
    IsToken(name) && !CodecOwned(name) && !HasFieldBreak(value)
  }

  function New(status: nat): Response {
    Response(FinalStatus(status), [], [], None)
  }

  /** A field the screen does not admit is dropped. */
  function Offer(resp: Response, name: bytes, value: bytes): Response {
    if HeaderPairOk(name, value) then resp.(fields := resp.fields + [(name, value)]) else resp
  }

  function OfferAll(resp: Response, offers: seq<Header>): Response
    decreases |offers|
  {
    if offers == [] then resp else OfferAll(Offer(resp, offers[0].0, offers[0].1), offers[1..])
  }

  /** The offers the screen admits, in order. */
  function Admitted(offers: seq<Header>): seq<Header> {
    if offers == [] then []
    else (if HeaderPairOk(offers[0].0, offers[0].1) then [offers[0]] else []) + Admitted(offers[1..])
  }

  predicate Screened(fields: seq<Header>) {
    forall i :: 0 <= i < |fields| ==> HeaderPairOk(fields[i].0, fields[i].1)
  }

  lemma {:induction false} OffersAdmitted(resp: Response, offers: seq<Header>)
    requires Screened(resp.fields)
    ensures OfferAll(resp, offers) == resp.(fields := resp.fields + Admitted(offers))
            && Screened(resp.fields + Admitted(offers))
    decreases |offers|
  {
    hide HeaderPairOk;
    if offers == [] {
      Empties(resp.fields);
    } else {
      var first := if HeaderPairOk(offers[0].0, offers[0].1) then [offers[0]] else [];
      Empties(resp.fields);
      OffersAdmitted(Offer(resp, offers[0].0, offers[0].1), offers[1..]);
      AppendAppend(resp.fields, first, Admitted(offers[1..]));
    }
  }

  // ----- writing

  predicate Bodyless(status: nat) {
    100 <= status <= 199 || status == 204 || status == 304
  }

  function Reason(status: nat): string {
    match status
    case 100 => "Continue"
    case 200 => "OK"
    case 204 => "No Content"
    case 206 => "Partial Content"
    case 301 => "Moved Permanently"
    case 304 => "Not Modified"
    case 307 => "Temporary Redirect"
    case 400 => "Bad Request"
    case 403 => "Forbidden"
    case 404 => "Not Found"
    case 405 => "Method Not Allowed"
    case 409 => "Conflict"
    case 411 => "Length Required"
    case 412 => "Precondition Failed"
    case 413 => "Content Too Large"
    case 416 => "Range Not Satisfiable"
    case 431 => "Request Header Fields Too Large"
    case 500 => "Internal Server Error"
    case 501 => "Not Implemented"
    case 503 => "Service Unavailable"
    case 505 => "HTTP Version Not Supported"
    case _ => ""
  }

  function StatusLine(status: nat): bytes {
    Ascii("HTTP/1.1 ") + Decimal(status) + [SP] + Ascii(Reason(status))
  }

  function FieldLine(name: bytes, value: bytes): bytes {
    name + [COLON, SP] + value
  }

  function DeclaredLength(resp: Response, headOnly: bool): nat {
    if headOnly && resp.headLen.Some? then resp.headLen.value else |resp.body|
  }

  /** Every field of the head, the codec's own first. */
  function AllFields(resp: Response, headOnly: bool, date: bytes, conn: ConnHeader): seq<Header> {
    [(Ascii("Date"), date)]
    + (if Bodyless(resp.status) then [] else [(Ascii("Content-Length"), Decimal(DeclaredLength(resp, headOnly)))])
    + (match conn
       case NoConn => []
       case KeepAlive => [(Ascii("Connection"), Ascii("keep-alive"))]
       case CloseConn => [(Ascii("Connection"), Ascii("close"))])
    + resp.fields
  }

  function FieldLines(fields: seq<Header>): bytes {
    if fields == [] then CRLF else FieldLine(fields[0].0, fields[0].1) + CRLF + FieldLines(fields[1..])
  }

  function Head(resp: Response, headOnly: bool, date: bytes, conn: ConnHeader): bytes {
    StatusLine(resp.status) + CRLF + FieldLines(AllFields(resp, headOnly, date, conn))
  }

  function SentBody(resp: Response, headOnly: bool): bytes {
    if headOnly || Bodyless(resp.status) then [] else resp.body
  }

  function Serialize(resp: Response, headOnly: bool, date: bytes, conn: ConnHeader): bytes {
    Head(resp, headOnly, date, conn) + SentBody(resp, headOnly)
  }

  // ----- reading, as a client does

  /** The lines before the first empty one, and what follows it. */
  function SplitHead(s: bytes): Option<(seq<bytes>, bytes)>
    decreases |s|
  {
    match FirstCrlf(s, 0)
    case None => None
    case Some(i) =>
      if i == 0 then Some(([], s[2..]))
      else
        match SplitHead(s[i + 2..])
        case None => None
        case Some((lines, rest)) => Some(([s[..i]] + lines, rest))
  }

  /** A field line's name and value. */
  function ReadField(line: bytes): Option<Header> {
    match FindFrom(line, COLON, 0)
    case None => None
    case Some(i) => if i + 1 < |line| && line[i + 1] == SP then Some((line[..i], line[i + 2..])) else None
  }

  function ReadFields(lines: seq<bytes>): Option<seq<Header>> {
    if lines == [] then Some([])
    else
      match (ReadField(lines[0]), ReadFields(lines[1..]))
      case (Some(f), Some(rest)) => Some([f] + rest)
      case _ => None
  }

  predicate Unbroken(s: bytes) {
    forall i :: 0 <= i < |s| ==> s[i] != CR && s[i] != LF
  }

  /** A name a colon ends, and a value that stays on its line. */
  predicate Carried(f: Header) {
    f.0 != [] && Unbroken(f.0) && COLON !in f.0 && Unbroken(f.1)
  }

  lemma {:induction false} LineEnds(line: bytes, rest: bytes)
    requires Unbroken(line)
    ensures FirstCrlf(line + CRLF + rest, 0) == Some(|line|)
    ensures (line + CRLF + rest)[..|line|] == line && (line + CRLF + rest)[|line| + 2..] == rest
  {
    var s := line + CRLF + rest;
    assert CrlfAt(s, |line|);
    assert forall j :: 0 <= j < |line| ==> s[j] == line[j];
    assert forall j :: 0 <= j < |line| ==> !CrlfAt(s, j);
    Halves(line + CRLF, rest);
    assert s == line + (CRLF + rest);
  }

  lemma {:induction false} FieldReads(f: Header)
    requires Carried(f)
    ensures ReadField(FieldLine(f.0, f.1)) == Some(f) && Unbroken(FieldLine(f.0, f.1)) && FieldLine(f.0, f.1) != []
  {
    var line := FieldLine(f.0, f.1);
    assert line[|f.0|] == COLON && line[|f.0| + 1] == SP;
    assert forall j :: 0 <= j < |f.0| ==> line[j] == f.0[j] && f.0[j] in f.0;
    assert FindFrom(line, COLON, 0) == Some(|f.0|);
    Halves(f.0 + [COLON, SP], f.1);
    assert line == f.0 + ([COLON, SP] + f.1);
  }

  predicate AllCarried(fields: seq<Header>) {
    forall i :: 0 <= i < |fields| ==> Carried(fields[i])
  }

  lemma {:induction false} FieldLinesRead(fields: seq<Header>, body: bytes) returns (lines: seq<bytes>)
    requires AllCarried(fields)
    ensures SplitHead(FieldLines(fields) + body) == Some((lines, body)) && ReadFields(lines) == Some(fields)
    decreases |fields|
  {
    hide Carried, FirstCrlf, ReadField, FieldLine;
    if fields == [] {
      lines := [];
      Blank(body);
    } else {
      var f := fields[0];
      var line := FieldLine(f.0, f.1);
      var tail := FieldLines(fields[1..]);
      var more := FieldLinesRead(fields[1..], body);
      FieldReads(f);
      AppendAppend(line + CRLF, tail, body);
      LineEnds(line, tail + body);
      lines := [line] + more;
      assert lines[1..] == more && lines[0] == line && [f] + fields[1..] == fields;
      assert SplitHead(tail + body) == Some((more, body));
      assert FieldLines(fields) + body == line + CRLF + (tail + body);
    }
  }

  lemma {:induction false} Blank(body: bytes)
    ensures FirstCrlf(CRLF + body, 0) == Some(0) && (CRLF + body)[2..] == body
  {
    assert CrlfAt(CRLF + body, 0);
  }

  lemma {:induction false} TokenIsCarried(name: bytes, value: bytes)
    requires HeaderPairOk(name, value)
    ensures Carried((name, value))
  {
  }

  lemma {:induction false} PlainAscii(s: string)
    requires Printable(s)
    ensures Unbroken(Ascii(s))
  {
  }

  predicate Printable(s: string) {
    forall i :: 0 <= i < |s| ==> 0x20 <= s[i] as int < 0x7F
  }

  lemma {:induction false} Phrases0()
    ensures Printable("Continue") && Printable("OK") && Printable("No Content") && Printable("Partial Content")
  {
  }

  lemma {:induction false} Phrases1()
    ensures Printable("Moved Permanently") && Printable("Not Modified") && Printable("Temporary Redirect")
            && Printable("Bad Request")
  {
  }

  lemma {:induction false} Phrases2()
    ensures Printable("Forbidden") && Printable("Not Found") && Printable("Method Not Allowed") && Printable("Conflict")
  {
  }

  lemma {:induction false} Phrases3()
    ensures Printable("Length Required") && Printable("Precondition Failed") && Printable("Content Too Large")
            && Printable("Range Not Satisfiable")
  {
  }

  lemma {:induction false} Phrases4()
    ensures Printable("Request Header Fields Too Large") && Printable("Internal Server Error")
            && Printable("Not Implemented") && Printable("Service Unavailable")
  {
  }

  lemma {:induction false} Phrases5()
    ensures Printable("HTTP Version Not Supported")
  {
  }

  lemma {:induction false} ReasonsArePlain(status: nat)
    ensures Unbroken(Ascii(Reason(status)))
  {
    hide Ascii, Printable;
    assert Printable("") by { NoPhrase(); }
    Phrases0();
    Phrases1();
    Phrases2();
    Phrases3();
    Phrases4();
    Phrases5();
    PlainAscii(Reason(status));
  }

  lemma {:induction false} NoPhrase()
    ensures Printable("")
  {
  }

  lemma {:induction false} DigitsAreUnbroken(n: nat)
    ensures Unbroken(Decimal(n))
  {
    hide Decimal;
  }

  lemma {:induction false} StatusLineIsPlain(status: nat)
    ensures Unbroken(StatusLine(status)) && StatusLine(status) != []
  {
    hide Ascii, Decimal, Reason;
    ReasonsArePlain(status);
    DigitsAreUnbroken(status);
    assert Printable("HTTP/1.1 ");
    PlainAscii("HTTP/1.1 ");
  }

  lemma {:induction false} OwnFields(date: bytes, n: nat)
    requires Unbroken(date)
    ensures Carried((Ascii("Date"), date)) && Carried((Ascii("Content-Length"), Decimal(n)))
    ensures Carried((Ascii("Connection"), Ascii("keep-alive"))) && Carried((Ascii("Connection"), Ascii("close")))
  {
    DigitsAreUnbroken(n);
    NameIsPlain("Date");
    NameIsPlain("Content-Length");
    NameIsPlain("Connection");
    NameIsPlain("keep-alive");
    NameIsPlain("close");
  }

  lemma {:induction false} NameIsPlain(s: string)
    requires s != "" && forall i :: 0 <= i < |s| ==> 0x20 <= s[i] as int < 0x7F && s[i] != ':'
    ensures Unbroken(Ascii(s)) && COLON !in Ascii(s) && Ascii(s) != []
  {
  }

  lemma {:induction false} AllFieldsCarried(resp: Response, headOnly: bool, date: bytes, conn: ConnHeader)
    requires Screened(resp.fields) && Unbroken(date)
    ensures AllCarried(AllFields(resp, headOnly, date, conn))
  {
    hide Carried, HeaderPairOk, Ascii, Decimal;
    OwnFields(date, DeclaredLength(resp, headOnly));
    forall i | 0 <= i < |resp.fields|
      ensures Carried(resp.fields[i])
    {
      TokenIsCarried(resp.fields[i].0, resp.fields[i].1);
    }
  }

  /**
    The bytes of a response are one head and one body: splitting at line ends gives the status line, the
    codec's fields and then the admitted ones in order, one blank line, and what is left is what was sent.
  */
  lemma {:induction false} ResponseReads(resp: Response, headOnly: bool, date: bytes, conn: ConnHeader)
    returns (lines: seq<bytes>)
    requires Screened(resp.fields) && Unbroken(date)
    ensures SplitHead(Serialize(resp, headOnly, date, conn)) ==
            Some(([StatusLine(resp.status)] + lines, SentBody(resp, headOnly)))
    ensures ReadFields(lines) == Some(AllFields(resp, headOnly, date, conn))
  {
    hide AllFields, StatusLine, Screened, FirstCrlf, FieldLines;
    var fields, body := AllFields(resp, headOnly, date, conn), SentBody(resp, headOnly);
    AllFieldsCarried(resp, headOnly, date, conn);
    lines := FieldLinesRead(fields, body);
    StatusLineIsPlain(resp.status);
    AppendAppend(StatusLine(resp.status) + CRLF, FieldLines(fields), body);
    LineEnds(StatusLine(resp.status), FieldLines(fields) + body);
  }

  // ----- the date never breaks a line

  lemma {:induction false} YearIsUnbroken(y: int)
    ensures Unbroken(D.YearText(y))
  {
    hide Decimal;
    ZerosAreUnbroken(4 - |Decimal(if y >= 0 then y else -y)|);
    ZerosAreUnbroken(3 - |Decimal(if y >= 0 then y else -y)|);
    DigitsAreUnbroken(if y >= 0 then y else -y);
  }

  lemma {:induction false} ZerosAreUnbroken(n: int)
    ensures Unbroken(D.Zeros(n))
    decreases n
  {
    if n > 0 {
      ZerosAreUnbroken(n - 1);
    }
  }

  lemma {:induction false} NamesAreUnbroken(m: nat, w: nat)
    requires 1 <= m <= 12 && w <= 6
    ensures Unbroken(D.MonthName(m)) && Unbroken(D.WeekdayName(w))
  {
  }

  lemma {:induction false} TwoIsUnbroken(n: nat)
    requires n <= 99
    ensures Unbroken(D.Two(n))
  {
  }

  lemma {:induction false} UnbrokenAppend(a: bytes, b: bytes)
    requires Unbroken(a) && Unbroken(b)
    ensures Unbroken(a + b)
  {
  }

  lemma {:induction false} ClockIsUnbroken(d: D.Date)
    requires D.ValidTime(d)
    ensures Unbroken([SP] + D.ClockText(d) + [SP, 71, 77, 84])
  {
    hide D.Two;
    TwoIsUnbroken(d.hour);
    TwoIsUnbroken(d.minute);
    TwoIsUnbroken(d.second);
  }

  /** The rendering of any second stays on one line. */
  lemma {:induction false} DateIsUnbroken(secs: int)
    requires D.I64_MIN <= secs <= D.I64_MAX
    ensures var d := D.FromUnix(secs);
            D.ValidDay(d.year, d.month, d.day) && D.ValidTime(d) && d.weekday <= 6 && Unbroken(D.Render(d))
  {
    hide D.FromUnix, D.Two, D.MonthName, D.WeekdayName, D.YearText, D.ValidDay, D.ClockText;
    D.RenderingFits(secs);
    var d := D.FromUnix(secs);
    D.MonthIs(d);
    NamesAreUnbroken(d.month, d.weekday);
    TwoIsUnbroken(d.day);
    var pre := D.WeekdayName(d.weekday) + [44, SP] + D.Two(d.day) + [SP] + D.MonthName(d.month) + [SP];
    assert Unbroken(pre);
    YearIsUnbroken(d.year);
    ClockIsUnbroken(d);
    hide Unbroken;
    UnbrokenAppend(D.YearText(d.year), [SP] + D.ClockText(d) + [SP, 71, 77, 84]);
    UnbrokenAppend(pre, D.YearText(d.year) + ([SP] + D.ClockText(d) + [SP, 71, 77, 84]));
  }

  /**
    For every status asked for, every sequence of offered fields, every body and every second: the output
    splits at CRLF into the status line, the codec's fields, the admitted offers in order, and the body.
  */
  lemma {:induction false} EveryResponseReads(status: nat, offers: seq<Header>, body: bytes, headLen: Option<nat>,
                                              headOnly: bool, secs: int, conn: ConnHeader)
    returns (lines: seq<bytes>)
    requires D.I64_MIN <= secs <= D.I64_MAX
    ensures var d := D.FromUnix(secs);
            D.ValidDay(d.year, d.month, d.day) && D.ValidTime(d) && d.weekday <= 6
    ensures var date := D.Render(D.FromUnix(secs));
            var resp := OfferAll(New(status).(body := body, headLen := headLen), offers);
            && SplitHead(Serialize(resp, headOnly, date, conn)) ==
               Some(([StatusLine(FinalStatus(status))] + lines, SentBody(resp, headOnly)))
            && ReadFields(lines) ==
               Some(AllFields(Response(FinalStatus(status), Admitted(offers), body, headLen), headOnly, date, conn))
  {
    hide D.FromUnix, D.Render, StatusLine, AllFields, Serialize, SplitHead, ReadFields, OfferAll, Admitted, FinalStatus,
         D.ValidDay;
    DateIsUnbroken(secs);
    var blank := New(status).(body := body, headLen := headLen);
    assert Screened(blank.fields);
    OffersAdmitted(blank, offers);
    Empties(Admitted(offers));
    lines := ResponseReads(OfferAll(blank, offers), headOnly, D.Render(D.FromUnix(secs)), conn);
  }

  // ----- lengths

  function Named(fields: seq<Header>, name: bytes): seq<Header> {
    if fields == [] then []
    else (if EqIgnoreCase(fields[0].0, name) then [fields[0]] else []) + Named(fields[1..], name)
  }

  lemma {:induction false} NoneAdmitted(fields: seq<Header>)
    requires Screened(fields)
    ensures Named(fields, Ascii("content-length")) == []
    decreases |fields|
  {
    hide Ascii, EqIgnoreCase, IsToken, HasFieldBreak;
    if fields != [] {
      assert HeaderPairOk(fields[0].0, fields[0].1);
      NoneAdmitted(fields[1..]);
    }
  }

  lemma {:induction false} NamedAppend(a: seq<Header>, b: seq<Header>, name: bytes)
    ensures Named(a + b, name) == Named(a, name) + Named(b, name)
    decreases |a|
  {
    hide EqIgnoreCase;
    if a == [] {
      Empties(b);
    } else {
      assert (a + b)[1..] == a[1..] + b;
      NamedAppend(a[1..], b, name);
      AppendAppend(if EqIgnoreCase(a[0].0, name) then [a[0]] else [], Named(a[1..], name), Named(b, name));
    }
  }

  lemma {:induction false} OwnNames()
    ensures EqIgnoreCase(Ascii("Content-Length"), Ascii("content-length"))
    ensures !EqIgnoreCase(Ascii("Date"), Ascii("content-length"))
            && !EqIgnoreCase(Ascii("Connection"), Ascii("content-length"))
  {
    var a, b := Ascii("Content-Length"), Ascii("content-length");
    assert forall i :: 0 <= i < 14 ==> LowerByte(a[i]) == b[i] == LowerByte(b[i]);
    assert Lower(a) == Lower(b);
  }

  lemma {:induction false} NamedOne(f: Header, name: bytes)
    ensures Named([f], name) == if EqIgnoreCase(f.0, name) then [f] else []
  {
    hide EqIgnoreCase;
    assert [f][1..] == [];
    assert Named([f][1..], name) == [];
  }

  lemma {:induction false} OneLength(resp: Response, headOnly: bool, date: bytes, conn: ConnHeader)
    requires Screened(resp.fields)
    ensures Named(AllFields(resp, headOnly, date, conn), Ascii("content-length")) ==
            if Bodyless(resp.status) then [] else [(Ascii("Content-Length"), Decimal(DeclaredLength(resp, headOnly)))]
  {
    hide Ascii, EqIgnoreCase, Decimal, Screened, Named;
    var name := Ascii("content-length");
    var d := [(Ascii("Date"), date)];
    var l := if Bodyless(resp.status) then [] else [(Ascii("Content-Length"), Decimal(DeclaredLength(resp, headOnly)))];
    var c := match conn
      case NoConn => []
      case KeepAlive => [(Ascii("Connection"), Ascii("keep-alive"))]
      case CloseConn => [(Ascii("Connection"), Ascii("close"))];
    OwnNames();
    NamedAppend(d + l + c, resp.fields, name);
    NamedAppend(d + l, c, name);
    NamedAppend(d, l, name);
    NamedOne(d[0], name);
    NamedNone(name);
    if l != [] {
      NamedOne(l[0], name);
    }
    if c != [] {
      NamedOne(c[0], name);
    }
    NoneAdmitted(resp.fields);
    Empties(Named(l, name));
  }

  lemma {:induction false} NamedNone(name: bytes)
    ensures Named([], name) == []
  {
  }

  /**
    Framing agrees with the bytes: there is one Content-Length, none on a bodyless status, no handler can
    add another, and off the HEAD path it denotes exactly the number of bytes sent behind the head.
  */
  lemma {:induction false} LengthIsWhatIsSent(resp: Response, headOnly: bool, date: bytes, conn: ConnHeader)
    requires Screened(resp.fields)
    ensures var lengths := Named(AllFields(resp, headOnly, date, conn), Ascii("content-length"));
            if Bodyless(resp.status) then lengths == [] && SentBody(resp, headOnly) == []
            else |lengths| == 1
                 && ValueOf(lengths[0].1, |lengths[0].1|) == DeclaredLength(resp, headOnly)
                 && (headOnly ==> SentBody(resp, headOnly) == [])
                 && (!headOnly ==> DeclaredLength(resp, headOnly) == |SentBody(resp, headOnly)|)
  {
    hide Named, AllFields, Decimal, Ascii;
    OneLength(resp, headOnly, date, conn);
    DecimalReads(DeclaredLength(resp, headOnly));
  }

  /** A final response's status line has a three-digit status. */
  lemma {:induction false} StatusHasThreeDigits(status: nat)
    ensures |Decimal(FinalStatus(status))| == 3 && ValueOf(Decimal(FinalStatus(status)), 3) == FinalStatus(status)
  {
    var n := FinalStatus(status);
    assert Decimal(n) == Decimal(n / 10) + [48 + n % 10];
    assert Decimal(n / 10) == Decimal(n / 10 / 10) + [48 + n / 10 % 10];
    DecimalReads(n);
  }

  // ----- replies, head and body as separate segments

  datatype Serialized =
    | HeadOnly(head: bytes)
    | Split(head: bytes, body: bytes)

  function Flat(s: Serialized): bytes {
    match s
    case HeadOnly(head) => head
    case Split(head, body) => head + body
  }

  // ----- as it runs

  const INLINE_HEADERS: nat := 8

  /** The first fields in a fixed array, the rest in a list. */
  class Headers {
    const inline: array<Header>
    var inlineLen: nat
    var spilled: seq<Header>

    ghost predicate Valid()
      reads this
    {
      inline.Length == INLINE_HEADERS && inlineLen <= INLINE_HEADERS && (spilled != [] ==> inlineLen == INLINE_HEADERS)
    }

    /** The fields in wire order. */
    ghost function Contents(): seq<Header>
      requires Valid()
      reads this, inline
    {
      inline[..inlineLen] + spilled
    }

    constructor ()
      ensures Valid() && Contents() == [] && fresh(inline)
    {
      inline, inlineLen, spilled := new Header[INLINE_HEADERS](_ => ([], [])), 0, [];
    }

    method Push(h: Header)
      requires Valid()
      modifies this, inline
      ensures Valid() && Contents() == old(Contents()) + [h]
    {
      if inlineLen < INLINE_HEADERS {
        inline[inlineLen] := h;
        inlineLen := inlineLen + 1;
      } else {
        AppendAppend(inline[..inlineLen], spilled, [h]);
        spilled := spilled + [h];
      }
    }

    /** Add a field if the screen admits it. */
    method Header(name: bytes, value: bytes)
      requires Valid()
      modifies this, inline
      ensures Valid() && Contents() == old(Contents()) + Admitted([(name, value)])
    {
      ghost var one := [(name, value)];
      assert one[1..] == [] && Admitted(one[1..]) == [];
      if HeaderPairOk(name, value) {
        Push((name, value));
      }
    }

    method Lines(out: bytes) returns (r: bytes)
      requires Valid()
      ensures r == out + FieldLines(Contents())
    {
      hide FieldLine;
      var all := inline[..inlineLen] + spilled;
      r := out;
      var i := 0;
      assert all[0..] == all;
      while i < |all|
        invariant i <= |all| && r + FieldLines(all[i..]) == out + FieldLines(all)
      {
        var f := if i < inlineLen then inline[i] else spilled[i - inlineLen];
        assert f == all[i];
        LinesStep(r, all, i);
        r := r + FieldLine(f.0, f.1) + CRLF;
        i := i + 1;
      }
      r := r + CRLF;
    }
  }

  lemma {:induction false} LinesStep(r: bytes, all: seq<Header>, i: nat)
    requires i < |all|
    ensures r + FieldLines(all[i..]) == r + FieldLine(all[i].0, all[i].1) + CRLF + FieldLines(all[i + 1..])
  {
    hide FieldLine;
    assert all[i..][1..] == all[i + 1..];
    var line := FieldLine(all[i].0, all[i].1);
    AppendAppend(r, line + CRLF, FieldLines(all[i + 1..]));
    AppendAppend(r, line, CRLF);
  }

  lemma {:induction false} FieldLinesAppend(a: seq<Header>, b: seq<Header>)
    ensures FieldLines(a + b) == Written(a) + FieldLines(b)
    decreases |a|
  {
    hide FieldLine;
    if a == [] {
      Empties(b);
      Empties(FieldLines(b));
    } else {
      assert (a + b)[1..] == a[1..] + b;
      FieldLinesAppend(a[1..], b);
      AppendAppend(FieldLine(a[0].0, a[0].1) + CRLF, Written(a[1..]), FieldLines(b));
    }
  }

  /** Field lines with no blank line after them. */
  function Written(fields: seq<Header>): bytes {
    if fields == [] then [] else FieldLine(fields[0].0, fields[0].1) + CRLF + Written(fields[1..])
  }

  class Reply {
    const status: nat
    const headers: Headers
    var body: bytes
    var headLen: Option<nat>

    ghost predicate Valid()
      reads this, headers
    {
      headers.Valid() && |body| <= U64_MAX && (headLen.Some? ==> headLen.value <= U64_MAX) && status <= U64_MAX
    }

    ghost function Value(): Response
      requires Valid()
      reads this, headers, headers.inline
    {
      Response(status, headers.Contents(), body, headLen)
    }

    constructor (s: nat)
      ensures Valid() && Value() == New(s) && fresh(headers) && fresh(headers.inline)
    {
      status, body, headLen := FinalStatus(s), [], None;
      headers := new Headers();
    }

    method WriteStatus() returns (out: bytes)
      requires Valid()
      ensures out == StatusLine(status) + CRLF
    {
      out := PushDecimal(Ascii("HTTP/1.1 "), status);
      out := out + [SP] + Ascii(Reason(status)) + CRLF;
    }

    /** The codec's own fields. */
    method WriteOwn(pre: bytes, headOnly: bool, date: bytes, conn: ConnHeader)
      returns (out: bytes, ghost own: seq<Header>)
      requires Valid()
      ensures out == pre + Written(own) && own + headers.Contents() == AllFields(Value(), headOnly, date, conn)
    {
      hide Ascii, Decimal, FieldLine, Written;
      Empties(pre);
      WrittenNone();
      own := [];
      out := WroteField(pre, pre, own, Ascii("Date"), date);
      own := [(Ascii("Date"), date)];
      Empties(own);
      if !Bodyless(status) {
        var digits := PushDecimal([], if headOnly && headLen.Some? then headLen.value else |body|);
        Empties(Decimal(DeclaredLength(Value(), headOnly)));
        out := WroteField(pre, out, own, Ascii("Content-Length"), digits);
        own := own + [(Ascii("Content-Length"), digits)];
      }
      if conn != NoConn {
        var token := if conn == KeepAlive then Ascii("keep-alive") else Ascii("close");
        out := WroteField(pre, out, own, Ascii("Connection"), token);
        own := own + [(Ascii("Connection"), token)];
      }
    }

    /** Status line, the codec's own fields, the admitted ones, and the blank line. */
    method WriteHead(headOnly: bool, date: bytes, conn: ConnHeader) returns (out: bytes)
      requires Valid()
      ensures out == Head(Value(), headOnly, date, conn)
    {
      hide FieldLines, StatusLine, Written, AllFields;
      var pre := WriteStatus();
      ghost var own;
      out, own := WriteOwn(pre, headOnly, date, conn);
      FieldLinesAppend(own, headers.Contents());
      AppendAppend(pre, Written(own), FieldLines(headers.Contents()));
      out := headers.Lines(out);
    }

    method Serialized(headOnly: bool, date: bytes, conn: ConnHeader) returns (out: bytes)
      requires Valid()
      ensures out == Serialize(Value(), headOnly, date, conn)
    {
      out := WriteHead(headOnly, date, conn);
      if !headOnly && !Bodyless(status) {
        out := out + body;
      } else {
        Empties(out);
      }
    }

    /** Head and body as the segments of one vectored send: together they are what serializing would have sent. */
    method SerializeReply(headOnly: bool, date: bytes, conn: ConnHeader) returns (s: Serialized)
      requires Valid()
      ensures Flat(s) == Serialize(Value(), headOnly, date, conn)
      ensures s.Split? <==> SentBody(Value(), headOnly) != []
    {
      var head := WriteHead(headOnly, date, conn);
      Empties(head);
      s := if headOnly || Bodyless(status) || body == [] then HeadOnly(head) else Split(head, body);
    }
  }

  lemma {:induction false} WrittenNone()
    ensures Written([]) == []
  {
  }

  /** One more field line. */
  method WroteField(ghost pre: bytes, out: bytes, ghost own: seq<Header>, name: bytes, value: bytes) returns (r: bytes)
    requires out == pre + Written(own)
    ensures r == pre + Written(own + [(name, value)])
  {
    hide Written;
    r := out + name + [COLON, SP] + value + CRLF;
    WrittenSnoc(own, (name, value));
    AppendAppend(pre, Written(own), FieldLine(name, value) + CRLF);
    assert r == out + (name + [COLON, SP] + value + CRLF);
  }

  lemma {:induction false} WrittenSnoc(own: seq<Header>, f: Header)
    ensures Written(own + [f]) == Written(own) + (FieldLine(f.0, f.1) + CRLF)
    decreases |own|
  {
    hide FieldLine;
    if own == [] {
      assert ([] + [f])[1..] == [];
      Empties(FieldLine(f.0, f.1) + CRLF);
    } else {
      assert (own + [f])[1..] == own[1..] + [f];
      WrittenSnoc(own[1..], f);
      AppendAppend(FieldLine(own[0].0, own[0].1) + CRLF, Written(own[1..]), FieldLine(f.0, f.1) + CRLF);
    }
  }
}
