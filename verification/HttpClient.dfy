/** What a client makes of a response: its status line, each of the codec's fields, the handler's, and the body. */
module HttpClient {
  import opened Bytes
  import opened Decimals
  import opened HttpResponse
  import D = HttpDate

  // ----- the status line

  /** Version, status and reason, as the first two blanks part them (section 4 of RFC 9112). */
  function ReadStatus(line: bytes): Option<(bytes, bytes, bytes)> {
    match FindFrom(line, SP, 0)
    case None => None
    case Some(i) =>
      match FindFrom(line, SP, i + 1)
      case None => None
      case Some(j) => Some((line[..i], line[i + 1..j], line[j + 1..]))
  }

  /** The registered phrases of the statuses the server uses (section 15 of RFC 9110, section 5 of RFC 6585). */
  const REGISTRY: seq<(nat, string)> := [
    (100, "Continue"), (200, "OK"), (204, "No Content"), (206, "Partial Content"), (301, "Moved Permanently"),
    (304, "Not Modified"), (307, "Temporary Redirect"), (400, "Bad Request"), (403, "Forbidden"), (404, "Not Found"),
    (405, "Method Not Allowed"), (409, "Conflict"), (411, "Length Required"), (412, "Precondition Failed"),
    (413, "Content Too Large"), (416, "Range Not Satisfiable"), (431, "Request Header Fields Too Large"),
    (500, "Internal Server Error"), (501, "Not Implemented"), (503, "Service Unavailable"),
    (505, "HTTP Version Not Supported")]

  predicate IsPhrase(status: nat, phrase: string) {
    if exists i :: 0 <= i < |REGISTRY| && REGISTRY[i].0 == status
    then exists i :: 0 <= i < |REGISTRY| && REGISTRY[i] == (status, phrase)
    else phrase == ""
  }

  lemma {:induction false} ReasonIs(status: nat)
    ensures IsPhrase(status, Reason(status))
  {
    var r := REGISTRY;
    match status
    case 100 => assert r[0].0 == 100;
    case 200 => assert r[1].0 == 200;
    case 204 => assert r[2].0 == 204;
    case 206 => assert r[3].0 == 206;
    case 301 => assert r[4].0 == 301;
    case 304 => assert r[5].0 == 304;
    case 307 => assert r[6].0 == 307;
    case 400 => assert r[7].0 == 400;
    case 403 => assert r[8].0 == 403;
    case 404 => assert r[9].0 == 404;
    case 405 => assert r[10].0 == 405;
    case 409 => assert r[11].0 == 409;
    case 411 => assert r[12].0 == 411;
    case 412 => assert r[13].0 == 412;
    case 413 => assert r[14].0 == 413;
    case 416 => assert r[15].0 == 416;
    case 431 => assert r[16].0 == 431;
    case 500 => assert r[17].0 == 500;
    case 501 => assert r[18].0 == 501;
    case 503 => assert r[19].0 == 503;
    case 505 => assert r[20].0 == 505;
    case _ =>
  }

  lemma {:induction false} StatusReads(status: nat)
    ensures ReadStatus(StatusLine(status)) == Some((Ascii("HTTP/1.1"), Decimal(status), Ascii(Reason(status))))
  {
    hide Reason, Decimal;
    var v, digits, phrase, line := Ascii("HTTP/1.1"), Decimal(status), Ascii(Reason(status)), StatusLine(status);
    assert Ascii("HTTP/1.1 ") == v + [SP];
    assert line == v + [SP] + (digits + [SP] + phrase);
    assert forall k :: 0 <= k < 8 ==> line[k] == v[k] != SP;
    assert line[8] == SP;
    assert FindFrom(line, SP, 0) == Some(8);
    var j := 9 + |digits|;
    assert forall k :: 9 <= k < j ==> line[k] == digits[k - 9];
    assert line[j] == SP;
    assert FindFrom(line, SP, 9) == Some(j);
    hide FindFrom, Ascii;
    assert line[..8] == v && line[9..j] == digits && line[j + 1..] == phrase;
  }

  // ----- the fields

  /** The names a handler may not send: the codec answers for them. */
  predicate Reserved(name: bytes) {
    || EqIgnoreCase(name, Ascii("date")) || EqIgnoreCase(name, Ascii("content-length"))
    || EqIgnoreCase(name, Ascii("connection")) || EqIgnoreCase(name, Ascii("transfer-encoding"))
  }

  /** A field a handler may send: a token for a name, not a reserved one, and nothing but field bytes. */
  predicate Sendable(h: Header) {
    && h.0 != [] && (forall i :: 0 <= i < |h.0| ==> IsTokenByte(h.0[i])) && !Reserved(h.0)
    && (forall i :: 0 <= i < |h.1| ==> IsFieldByte(h.1[i]))
  }

  function Sendables(offers: seq<Header>): seq<Header> {
    if offers == [] then [] else (if Sendable(offers[0]) then [offers[0]] else []) + Sendables(offers[1..])
  }

  /** The fields that are not reserved. */
  function Handlers(fields: seq<Header>): seq<Header> {
    if fields == [] then [] else (if Reserved(fields[0].0) then [] else [fields[0]]) + Handlers(fields[1..])
  }

  lemma {:induction false} AdmittedAreSendable(offers: seq<Header>)
    ensures Admitted(offers) == Sendables(offers)
    decreases |offers|
  {
    hide EqIgnoreCase, Ascii, IsTokenByte, HasFieldBreak, IsFieldByte;
    if offers != [] {
      FieldBreakIff(offers[0].1);
      AdmittedAreSendable(offers[1..]);
    }
  }

  lemma {:induction false} HandlersAppend(a: seq<Header>, b: seq<Header>)
    ensures Handlers(a + b) == Handlers(a) + Handlers(b)
    decreases |a|
  {
    hide Reserved;
    if a == [] {
      Empties(b);
    } else {
      assert (a + b)[1..] == a[1..] + b;
      HandlersAppend(a[1..], b);
      AppendAppend(if Reserved(a[0].0) then [] else [a[0]], Handlers(a[1..]), Handlers(b));
    }
  }

  lemma {:induction false} ScreenedAreHandlers(fields: seq<Header>)
    requires Screened(fields)
    ensures Handlers(fields) == fields
    decreases |fields|
  {
    hide EqIgnoreCase, Ascii, IsToken, HasFieldBreak;
    if fields != [] {
      assert HeaderPairOk(fields[0].0, fields[0].1);
      ScreenedAreHandlers(fields[1..]);
      assert [fields[0]] + fields[1..] == fields;
    }
  }

  lemma {:induction false} ScreenedNamesNone(fields: seq<Header>, name: bytes)
    requires Screened(fields) && Lower(name) == name && Reserved(name)
    ensures Named(fields, name) == []
    decreases |fields|
  {
    hide Ascii, IsToken, HasFieldBreak;
    if fields != [] {
      assert HeaderPairOk(fields[0].0, fields[0].1);
      ScreenedNamesNone(fields[1..], name);
    }
  }

  lemma {:induction false} LowerOf(s: string, t: string)
    requires |s| == |t| && forall i :: 0 <= i < |s| ==> s[i] as int < 128 && t[i] as int < 128
    requires forall i :: 0 <= i < |s| ==> LowerByte(s[i] as int) == t[i] as int && LowerByte(t[i] as int) == t[i] as int
    ensures EqIgnoreCase(Ascii(s), Ascii(t)) && Lower(Ascii(t)) == Ascii(t)
  {
    var a, b := Ascii(s), Ascii(t);
    assert Lower(a) == b == Lower(b);
  }

  lemma {:induction false} LengthsPart(a: bytes, b: bytes)
    requires |a| != |b|
    ensures !EqIgnoreCase(a, b)
  {
    assert |Lower(a)| != |Lower(b)|;
  }

  /** The codec's three names are reserved ones, and no two of the four are alike. */
  lemma {:induction false} OwnAreReserved()
    ensures EqIgnoreCase(Ascii("Date"), Ascii("date")) && Lower(Ascii("date")) == Ascii("date")
    ensures EqIgnoreCase(Ascii("Content-Length"), Ascii("content-length"))
    ensures Lower(Ascii("content-length")) == Ascii("content-length")
    ensures EqIgnoreCase(Ascii("Connection"), Ascii("connection")) && Lower(Ascii("connection")) == Ascii("connection")
    ensures Lower(Ascii("transfer-encoding")) == Ascii("transfer-encoding")
  {
    LowerOf("Date", "date");
    LowerOf("Content-Length", "content-length");
    LowerOf("Connection", "connection");
    LowerOf("transfer-encoding", "transfer-encoding");
  }

  lemma {:induction false} NamedOwn(own: seq<Header>, fields: seq<Header>, name: bytes)
    requires Screened(fields) && Lower(name) == name && Reserved(name)
    ensures Named(own + fields, name) == Named(own, name)
  {
    hide Screened, Reserved, Named;
    NamedAppend(own, fields, name);
    ScreenedNamesNone(fields, name);
    Empties(Named(own, name));
  }

  /** What the codec itself says in a head. */
  function Own(resp: Response, headOnly: bool, date: bytes, conn: ConnHeader): seq<Header> {
    [(Ascii("Date"), date)] + LengthField(resp, headOnly) + ConnectionField(conn)
  }

  function LengthField(resp: Response, headOnly: bool): seq<Header> {
    if resp.status / 100 == 1 || resp.status == 204 || resp.status == 304 then []
    else if headOnly && resp.headLen.Some? then [(Ascii("Content-Length"), Decimal(resp.headLen.value))]
    else [(Ascii("Content-Length"), Decimal(|resp.body|))]
  }

  function ConnectionField(conn: ConnHeader): seq<Header> {
    match conn
    case NoConn => []
    case KeepAlive => [(Ascii("Connection"), Ascii("keep-alive"))]
    case CloseConn => [(Ascii("Connection"), Ascii("close"))]
  }

  lemma {:induction false} OwnFirst(resp: Response, headOnly: bool, date: bytes, conn: ConnHeader)
    ensures AllFields(resp, headOnly, date, conn) == Own(resp, headOnly, date, conn) + resp.fields
  {
    hide Ascii, Decimal;
  }

  lemma {:induction false} OwnNamed(resp: Response, headOnly: bool, date: bytes, conn: ConnHeader, name: bytes)
    ensures Named(Own(resp, headOnly, date, conn), name) ==
            (if EqIgnoreCase(Ascii("Date"), name) then [(Ascii("Date"), date)] else [])
            + (if EqIgnoreCase(Ascii("Content-Length"), name) then LengthField(resp, headOnly) else [])
            + (if EqIgnoreCase(Ascii("Connection"), name) then ConnectionField(conn) else [])
  {
    hide Ascii, EqIgnoreCase, Decimal, Named;
    var d, l, c := [(Ascii("Date"), date)], LengthField(resp, headOnly), ConnectionField(conn);
    NamedAppend(d + l, c, name);
    NamedAppend(d, l, name);
    NamedOne(d[0], name);
    NamedNone(name);
    if l != [] {
      NamedOne(l[0], name);
    }
    if c != [] {
      NamedOne(c[0], name);
    }
  }

  lemma {:induction false} OwnUnhandled(resp: Response, headOnly: bool, date: bytes, conn: ConnHeader)
    ensures Handlers(Own(resp, headOnly, date, conn)) == []
  {
    OwnAreReserved();
    hide Ascii, EqIgnoreCase, Decimal;
    var d, l, c := [(Ascii("Date"), date)], LengthField(resp, headOnly), ConnectionField(conn);
    HandlersAppend(d + l, c);
    HandlersAppend(d, l);
    assert d[1..] == [] && (l != [] ==> l[1..] == []) && (c != [] ==> c[1..] == []);
    assert Handlers([]) == [];
  }

  /**
    The fields of a head: one `Date`, the date; a `Content-Length` unless the status has no body, and never two; a
    `Connection` exactly when there is something to say, saying it; no transfer coding; and of the rest exactly the
    handler's, in order.
  */
  predicate Says(fs: seq<Header>, resp: Response, headOnly: bool, date: bytes, conn: ConnHeader) {
    && Named(fs, Ascii("date")) == [(Ascii("Date"), date)]
    && Named(fs, Ascii("content-length")) == LengthField(resp, headOnly)
    && Named(fs, Ascii("connection")) == ConnectionField(conn)
    && Named(fs, Ascii("transfer-encoding")) == []
    && Handlers(fs) == resp.fields
  }

  lemma {:induction false} FieldsSay(resp: Response, headOnly: bool, date: bytes, conn: ConnHeader)
    requires Screened(resp.fields)
    ensures Says(AllFields(resp, headOnly, date, conn), resp, headOnly, date, conn)
  {
    hide AllFields, Ascii, LengthField, ConnectionField, Screened, Own, Named, Handlers;
    OneNamed(resp, headOnly, date, conn, "date");
    OneNamed(resp, headOnly, date, conn, "content-length");
    OneNamed(resp, headOnly, date, conn, "connection");
    OneNamed(resp, headOnly, date, conn, "transfer-encoding");
    var own := Own(resp, headOnly, date, conn);
    OwnFirst(resp, headOnly, date, conn);
    HandlersAppend(own, resp.fields);
    OwnUnhandled(resp, headOnly, date, conn);
    ScreenedAreHandlers(resp.fields);
    Empties(resp.fields);
  }

  lemma {:induction false} SelfAlike(name: bytes)
    ensures EqIgnoreCase(name, name)
  {
  }

  lemma {:induction false} ApartByLength(a: bytes, b: bytes)
    requires |a| != |b|
    ensures !EqIgnoreCase(a, b)
  {
    assert |Lower(a)| == |a| && |Lower(b)| == |b|;
  }

  /** What is read under one of the codec's four names. */
  lemma {:induction false} OneNamed(resp: Response, headOnly: bool, date: bytes, conn: ConnHeader, name: string)
    requires Screened(resp.fields) && name in ["date", "content-length", "connection", "transfer-encoding"]
    ensures Named(AllFields(resp, headOnly, date, conn), Ascii(name)) ==
            if name == "date" then [(Ascii("Date"), date)]
            else if name == "content-length" then LengthField(resp, headOnly)
            else if name == "connection" then ConnectionField(conn)
            else []
  {
    OwnAreReserved();
    var own, n := Own(resp, headOnly, date, conn), Ascii(name);
    assert |Ascii("Date")| == 4 && |Ascii("Content-Length")| == 14 && |Ascii("Connection")| == 10 && |n| == |name|;
    hide AllFields, Ascii, EqIgnoreCase, LengthField, ConnectionField, Screened, Own, Named, Lower;
    OwnFirst(resp, headOnly, date, conn);
    SelfAlike(n);
    NamedOwn(own, resp.fields, n);
    OwnNamed(resp, headOnly, date, conn, n);
    if name != "date" {
      ApartByLength(Ascii("Date"), n);
    }
    if name != "content-length" {
      ApartByLength(Ascii("Content-Length"), n);
    }
    if name != "connection" {
      ApartByLength(Ascii("Connection"), n);
    }
  }

  // ----- the whole response

  /**
    For every status asked for, every sequence of offered fields, every body and every second, a client that
    splits the bytes at line ends reads: a status line of this version with the status, or 500 for one that is not
    final, and its registered phrase; the fields above, the handler's being exactly the sendable offers, in order;
    and the body, or nothing in answer to HEAD and for a status without one.
  */
  lemma {:induction false} EveryResponseSays(status: nat, offers: seq<Header>, body: bytes, headLen: Option<nat>,
                                             headOnly: bool, secs: int, conn: ConnHeader)
    returns (first: bytes, lines: seq<bytes>, fs: seq<Header>, phrase: string)
    requires D.I64_MIN <= secs <= D.I64_MAX
    ensures var d := D.FromUnix(secs);
            D.ValidDay(d.year, d.month, d.day) && D.ValidTime(d) && d.weekday <= 6
    ensures var date, n := D.Render(D.FromUnix(secs)), if 200 <= status <= 999 then status else 500;
            var resp := OfferAll(New(status).(body := body, headLen := headLen), offers);
            && SplitHead(Serialize(resp, headOnly, date, conn)) ==
               Some(([first] + lines, if headOnly || n == 204 || n == 304 then [] else body))
            && ReadStatus(first) == Some((Ascii("HTTP/1.1"), Decimal(n), Ascii(phrase))) && IsPhrase(n, phrase)
            && ReadFields(lines) == Some(fs)
            && Says(fs, Response(n, Sendables(offers), body, headLen), headOnly, date, conn)
  {
    hide D.FromUnix, D.Render, StatusLine, AllFields, Serialize, SplitHead, ReadFields, OfferAll, Admitted, D.ValidDay,
         Says, ReadStatus, IsPhrase, Screened, Sendables, Decimal, Ascii, Reason;
    lines := EveryResponseReads(status, offers, body, headLen, headOnly, secs, conn);
    var date, n := D.Render(D.FromUnix(secs)), FinalStatus(status);
    first, phrase := StatusLine(n), Reason(n);
    StatusReads(n);
    ReasonIs(n);
    AdmittedAreSendable(offers);
    var resp := Response(n, Sendables(offers), body, headLen);
    fs := AllFields(resp, headOnly, date, conn);
    SentAre(status, offers, body, headLen, headOnly);
    FieldsSay(resp, headOnly, date, conn);
  }

  lemma {:induction false} SentAre(status: nat, offers: seq<Header>, body: bytes, headLen: Option<nat>, headOnly: bool)
    ensures var resp := OfferAll(New(status).(body := body, headLen := headLen), offers);
            SentBody(resp, headOnly) ==
            if headOnly || FinalStatus(status) == 204 || FinalStatus(status) == 304 then [] else body
    ensures Screened(Admitted(offers))
  {
    hide OfferAll, Admitted, HeaderPairOk;
    var blank := New(status).(body := body, headLen := headLen);
    assert Screened(blank.fields);
    OffersAdmitted(blank, offers);
    Empties(Admitted(offers));
  }
}
