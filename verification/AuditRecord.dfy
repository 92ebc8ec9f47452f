/** Audit record text, and that every field of an event can be read back out of it. */
module AuditRecord {
  import opened Bytes
  import opened Decimals

  const QUOTE: byte := 34
  const APOSTROPHE: byte := 39
  const EQUALS: byte := 61

  datatype Principal = Principal(user: Option<bytes>, uid: Option<nat>, addr: Option<bytes>, cred: Option<bytes>)

  /** Values are UTF-8 bytes; field names are text. */
  datatype Event = Event(service: bytes, verb: bytes, principal: Principal, fields: seq<(string, bytes)>, success: bool)

  // ----- rendering

  predicate Clean(b: byte) {
    0x21 <= b <= 0x7E && b != QUOTE && b != APOSTROPHE
  }

  predicate NeedsEncoding(v: bytes) {
    exists i :: 0 <= i < |v| && !Clean(v[i])
  }

  predicate IsWordChar(c: char) {
    '0' <= c <= '9' || 'A' <= c <= 'Z' || 'a' <= c <= 'z'
  }

  /** A name with anything but letters, digits and underscores made an underscore. */
  function SanitizeKey(key: string): (r: bytes)
    ensures |r| == |key|
  {
    seq(|key|, i requires 0 <= i < |key| => if IsWordChar(key[i]) then key[i] as int else 95)
  }

  function HexDigitOf(n: nat): (r: byte)
    requires n < 16
    ensures IsHexDigit(r)
  {
    if n < 10 then 48 + n else 55 + n
  }

  predicate IsHexDigit(b: byte) {
    48 <= b <= 57 || 65 <= b <= 70
  }

  function Hex(v: bytes): (r: bytes)
    ensures |r| == 2 * |v| && forall i :: 0 <= i < |r| ==> IsHexDigit(r[i])
  {
    if v == [] then [] else Hex(v[..|v| - 1]) + [HexDigitOf(v[|v| - 1] / 16), HexDigitOf(v[|v| - 1] % 16)]
  }

  function Encoded(v: bytes): bytes {
    if NeedsEncoding(v) then Hex(v) else [QUOTE] + v + [QUOTE]
  }

  function Token(key: bytes, v: bytes): bytes {
    key + [EQUALS] + Encoded(v)
  }

  function OpValue(e: Event): bytes {
    e.service + [COLON] + e.verb
  }

  function OpToken(e: Event): bytes {
    if NeedsEncoding(e.service) || NeedsEncoding(e.verb) then Token(Ascii("op"), OpValue(e))
    else Ascii("op=") + OpValue(e)
  }

  function Optional(key: string, v: Option<bytes>): seq<bytes> {
    match v
    case None => []
    case Some(value) => [Token(Ascii(key), value)]
  }

  function UidToken(uid: Option<nat>): seq<bytes> {
    match uid
    case None => []
    case Some(n) => [Ascii("acct_uid=") + [QUOTE] + Decimal(n) + [QUOTE]]
  }

  function FieldTokens(fields: seq<(string, bytes)>): seq<bytes> {
    if fields == [] then []
    else FieldTokens(fields[..|fields| - 1]) + [Token(SanitizeKey(fields[|fields| - 1].0), fields[|fields| - 1].1)]
  }

  function ResToken(success: bool): bytes {
    if success then Ascii("res=success") else Ascii("res=failed")
  }

  function Tokens(e: Event): seq<bytes> {
    [OpToken(e)] + Optional("acct", e.principal.user) + UidToken(e.principal.uid) + Optional("addr", e.principal.addr)
    + Optional("cred", e.principal.cred) + FieldTokens(e.fields) + [ResToken(e.success)]
  }

  /** Tokens appended to a buffer, a space before each unless it comes first. */
  function Appended(out: bytes, tokens: seq<bytes>): bytes {
    if tokens == [] then out
    else
      var before := Appended(out, tokens[..|tokens| - 1]);
      (if before == [] then [] else before + [SP]) + tokens[|tokens| - 1]
  }

  // ----- reading

  function HexValueOf(b: byte): (r: nat)
    requires IsHexDigit(b)
    ensures r < 16
  {
    if b <= 57 then b - 48 else b - 55
  }

  function UnHex(s: bytes): bytes
    requires |s| % 2 == 0 && forall i :: 0 <= i < |s| ==> IsHexDigit(s[i])
  {
    if s == [] then [] else UnHex(s[..|s| - 2]) + [16 * HexValueOf(s[|s| - 2]) + HexValueOf(s[|s| - 1])]
  }

  predicate IsHex(s: bytes) {
    s != [] && |s| % 2 == 0 && forall i :: 0 <= i < |s| ==> IsHexDigit(s[i])
  }

  /** A field's name and value: quoted, in hex, or bare. */
  function ReadToken(t: bytes): Option<(bytes, bytes)> {
    match FindFrom(t, EQUALS, 0)
    case None => None
    case Some(i) =>
      var v := t[i + 1..];
      if |v| >= 2 && v[0] == QUOTE then Some((t[..i], v[1..|v| - 1]))
      else if IsHex(v) then Some((t[..i], UnHex(v)))
      else Some((t[..i], v))
  }

  function ReadTokens(ts: seq<bytes>): Option<seq<(bytes, bytes)>> {
    if ts == [] then Some([])
    else
      match (ReadTokens(ts[..|ts| - 1]), ReadToken(ts[|ts| - 1]))
      case (Some(front), Some(last)) => Some(front + [last])
      case _ => None
  }

  /** What the event says, in order: the outcome last. */
  function Facts(e: Event): seq<(bytes, bytes)> {
    [(Ascii("op"), OpValue(e))]
    + OptionalFact("acct", e.principal.user)
    + UidFact(e.principal.uid)
    + OptionalFact("addr", e.principal.addr) + OptionalFact("cred", e.principal.cred)
    + FieldFacts(e.fields)
    + [(Ascii("res"), Ascii(if e.success then "success" else "failed"))]
  }

  function OptionalFact(key: string, v: Option<bytes>): seq<(bytes, bytes)> {
    match v
    case None => []
    case Some(value) => [(Ascii(key), value)]
  }

  function FieldFacts(fields: seq<(string, bytes)>): seq<(bytes, bytes)> {
    if fields == [] then []
    else FieldFacts(fields[..|fields| - 1]) + [(SanitizeKey(fields[|fields| - 1].0), fields[|fields| - 1].1)]
  }

  // ----- single tokens

  /** A byte is its two digits. */
  lemma {:induction false} Nibbles(b: byte)
    ensures 16 * HexValueOf(HexDigitOf(b / 16)) + HexValueOf(HexDigitOf(b % 16)) == b
  {
  }

  /** Two more digits are one more byte. */
  lemma {:induction false} UnHexSnoc(s: bytes, x: byte, y: byte)
    requires |s| % 2 == 0 && (forall i :: 0 <= i < |s| ==> IsHexDigit(s[i])) && IsHexDigit(x) && IsHexDigit(y)
    ensures var t := s + [x, y];
            && |t| % 2 == 0 && (forall i :: 0 <= i < |t| ==> IsHexDigit(t[i]))
            && 16 * HexValueOf(x) + HexValueOf(y) < 256
            && UnHex(t) == UnHex(s) + [16 * HexValueOf(x) + HexValueOf(y)]
  {
    hide HexValueOf;
    var t := s + [x, y];
    assert t[..|t| - 2] == s && t[|t| - 2] == x && t[|t| - 1] == y;
  }

  lemma {:induction false} HexSnoc(v: bytes)
    requires v != []
    ensures Hex(v) == Hex(v[..|v| - 1]) + [HexDigitOf(v[|v| - 1] / 16), HexDigitOf(v[|v| - 1] % 16)]
  {
    hide HexDigitOf;
  }

  lemma {:induction false} NoHex()
    ensures Hex([]) == [] && UnHex([]) == []
  {
  }

  lemma {:induction false} UnHexHex(v: bytes)
    ensures UnHex(Hex(v)) == v
    decreases |v|
  {
    hide HexDigitOf, HexValueOf, UnHex, Hex;
    if v == [] {
      NoHex();
    } else {
      var front, last := v[..|v| - 1], v[|v| - 1];
      UnHexHex(front);
      Nibbles(last);
      HexSnoc(v);
      UnHexSnoc(Hex(front), HexDigitOf(last / 16), HexDigitOf(last % 16));
      assert v == front + [last];
    }
  }

  /** A name that ends at the first equals sign. */
  predicate KeyOk(key: bytes) {
    forall i :: 0 <= i < |key| ==> Clean(key[i]) && key[i] != EQUALS
  }

  /** Nothing in a token ends it, the record, or the quote around the record. */
  predicate TokenOk(t: bytes) {
    t != [] && forall i :: 0 <= i < |t| ==> 0x21 <= t[i] <= 0x7E && t[i] != APOSTROPHE
  }

  lemma {:induction false} KeyEnds(key: bytes, rest: bytes)
    requires KeyOk(key)
    ensures var t := key + [EQUALS] + rest;
            FindFrom(t, EQUALS, 0) == Some(|key|) && t[..|key|] == key && t[|key| + 1..] == rest
  {
    var t := key + [EQUALS] + rest;
    assert t[|key|] == EQUALS;
    assert forall j :: 0 <= j < |key| ==> t[j] == key[j];
    assert t == key + ([EQUALS] + rest);
    Halves(key + [EQUALS], rest);
  }

  lemma {:induction false} EncodedReads(v: bytes)
    ensures NeedsEncoding(v) ==> IsHex(Encoded(v)) && UnHex(Encoded(v)) == v && Encoded(v)[0] != QUOTE
    ensures !NeedsEncoding(v) ==> |Encoded(v)| >= 2 && Encoded(v)[0] == QUOTE && Encoded(v)[1..|Encoded(v)| - 1] == v
    ensures TokenOk(Encoded(v))
  {
    hide Hex, UnHex, IsHex, TokenOk;
    if NeedsEncoding(v) {
      HexReads(v);
    } else {
      QuotedReads(v);
    }
  }

  lemma {:induction false} HexReads(v: bytes)
    requires v != []
    ensures IsHex(Hex(v)) && UnHex(Hex(v)) == v && TokenOk(Hex(v)) && Hex(v)[0] != QUOTE
  {
    hide Hex, UnHex;
    UnHexHex(v);
    assert forall i :: 0 <= i < |Hex(v)| ==> IsHexDigit(Hex(v)[i]);
  }

  lemma {:induction false} QuotedReads(v: bytes)
    requires !NeedsEncoding(v)
    ensures var q := [QUOTE] + v + [QUOTE]; q[0] == QUOTE && q[1..|q| - 1] == v && TokenOk(q)
  {
    var q := [QUOTE] + v + [QUOTE];
    assert q[1..|q| - 1] == v;
    assert forall i :: 0 < i < |q| - 1 ==> q[i] == v[i - 1] && Clean(v[i - 1]);
  }

  /** A token reads back as its name and its value, whichever way the value is written. */
  lemma {:induction false} TokenReads(key: bytes, v: bytes)
    requires KeyOk(key)
    ensures ReadToken(Token(key, v)) == Some((key, v)) && TokenOk(Token(key, v))
  {
    hide Hex, UnHex, NeedsEncoding, Encoded;
    KeyEnds(key, Encoded(v));
    EncodedReads(v);
  }

  lemma {:induction false} BareReads(key: bytes, v: bytes)
    requires KeyOk(key) && TokenOk(v) && v[0] != QUOTE && exists i :: 0 <= i < |v| && !IsHexDigit(v[i])
    ensures ReadToken(key + [EQUALS] + v) == Some((key, v)) && TokenOk(key + [EQUALS] + v)
  {
    hide UnHex;
    KeyEnds(key, v);
  }

  lemma {:induction false} SanitizedOk(key: string)
    ensures KeyOk(SanitizeKey(key))
  {
  }

  lemma {:induction false} NamesOk()
    ensures KeyOk(Ascii("op")) && KeyOk(Ascii("acct")) && KeyOk(Ascii("acct_uid")) && KeyOk(Ascii("addr"))
    ensures KeyOk(Ascii("cred")) && KeyOk(Ascii("res"))
    ensures Ascii("op=") == Ascii("op") + [EQUALS] && Ascii("acct_uid=") == Ascii("acct_uid") + [EQUALS]
    ensures Ascii("res=success") == Ascii("res") + [EQUALS] + Ascii("success")
    ensures Ascii("res=failed") == Ascii("res") + [EQUALS] + Ascii("failed")
  {
  }

  lemma {:induction false} OpReads(e: Event)
    ensures ReadToken(OpToken(e)) == Some((Ascii("op"), OpValue(e))) && TokenOk(OpToken(e))
  {
    hide Ascii;
    NamesOk();
    var v := OpValue(e);
    if NeedsEncoding(e.service) || NeedsEncoding(e.verb) {
      TokenReads(Ascii("op"), v);
    } else {
      assert v[|e.service|] == COLON;
      assert forall i :: 0 <= i < |v| ==> Clean(v[i]);
      BareReads(Ascii("op"), v);
    }
  }

  lemma {:induction false} DigitsClean(d: bytes)
    requires forall i :: 0 <= i < |d| ==> IsDigit(d[i])
    ensures !NeedsEncoding(d)
  {
  }

  lemma {:induction false} UidReads(n: nat)
    ensures var t := Ascii("acct_uid=") + [QUOTE] + Decimal(n) + [QUOTE];
            ReadToken(t) == Some((Ascii("acct_uid"), Decimal(n))) && TokenOk(t)
  {
    hide Ascii, Decimal, NeedsEncoding, Hex, TokenOk, KeyOk;
    NamesOk();
    var d := Decimal(n);
    DigitsClean(d);
    TokenReads(Ascii("acct_uid"), d);
    hide ReadToken;
    QuotedToken(Ascii("acct_uid"), d);
  }

  lemma {:induction false} QuotedToken(key: bytes, d: bytes)
    requires !NeedsEncoding(d)
    ensures key + [EQUALS] + [QUOTE] + d + [QUOTE] == Token(key, d)
  {
    hide NeedsEncoding, Hex;
  }

  lemma {:induction false} ResReads(success: bool)
    ensures ReadToken(ResToken(success)) == Some((Ascii("res"), Ascii(if success then "success" else "failed")))
    ensures TokenOk(ResToken(success))
  {
    Outcomes();
    hide Ascii;
    NamesOk();
    BareReads(Ascii("res"), Ascii(if success then "success" else "failed"));
  }

  lemma {:induction false} Outcomes()
    ensures TokenOk(Ascii("success")) && Ascii("success")[0] == 115 && TokenOk(Ascii("failed"))
            && Ascii("failed")[0] == 102
    ensures Ascii("failed")[2] == 105
  {
  }

  // ----- what is written

  const HEX_DIGITS: string := "0123456789ABCDEF"

  /** A name the kernel takes as it is: letters, digits and underscores. */
  predicate PlainKey(key: string) {
    forall i :: 0 <= i < |key| ==>
      '0' <= key[i] <= '9' || 'A' <= key[i] <= 'Z' || 'a' <= key[i] <= 'z' || key[i] == '_'
  }

  /** A plain name is kept, and in any other exactly the characters that are not plain become underscores. */
  lemma {:induction false} SanitizedIs(key: string)
    ensures PlainKey(key) ==> SanitizeKey(key) == Ascii(key)
    ensures |SanitizeKey(key)| == |key|
    ensures forall i :: 0 <= i < |key| ==>
              SanitizeKey(key)[i] == if PlainKey([key[i]]) then key[i] as int else '_' as int
  {
    forall i | 0 <= i < |key|
      ensures SanitizeKey(key)[i] == if PlainKey([key[i]]) then key[i] as int else '_' as int
    {
      assert [key[i]][0] == key[i];
    }
  }

  /** A byte that cannot be inside quotes: white space, a control, anything past ASCII, or a quote of either kind. */
  predicate Awkward(b: byte) {
    b <= ' ' as int || b > '~' as int || b == '"' as int || b == '\'' as int
  }

  /** A value is quoted as it is, or two upper-case digits a byte, exactly when some byte cannot be inside quotes. */
  lemma {:induction false} EncodedIs(v: bytes)
    ensures (forall i :: 0 <= i < |v| ==> !Awkward(v[i])) ==> Encoded(v) == Ascii("\"") + v + Ascii("\"")
    ensures (exists i :: 0 <= i < |v| && Awkward(v[i])) ==>
              && |Encoded(v)| == 2 * |v|
              && forall i :: 0 <= i < |v| ==>
                   && Encoded(v)[2 * i] == HEX_DIGITS[v[i] / 16] as int
                   && Encoded(v)[2 * i + 1] == HEX_DIGITS[v[i] % 16] as int
  {
    hide Hex;
    assert forall i :: 0 <= i < |v| ==> (Awkward(v[i]) <==> !Clean(v[i]));
    if exists i :: 0 <= i < |v| && Awkward(v[i]) {
      forall i | 0 <= i < |v|
        ensures Hex(v)[2 * i] == HEX_DIGITS[v[i] / 16] as int && Hex(v)[2 * i + 1] == HEX_DIGITS[v[i] % 16] as int
      {
        HexAt(v, i);
      }
    }
  }

  lemma {:induction false} HexAt(v: bytes, i: nat)
    requires i < |v|
    ensures Hex(v)[2 * i] == HEX_DIGITS[v[i] / 16] as int && Hex(v)[2 * i + 1] == HEX_DIGITS[v[i] % 16] as int
    decreases |v|
  {
    var front := v[..|v| - 1];
    assert |Hex(front)| == 2 * |front|;
    if i < |front| {
      HexAt(front, i);
    } else {
      DigitIs(v[i] / 16);
      DigitIs(v[i] % 16);
    }
  }

  lemma {:induction false} DigitIs(n: nat)
    requires n < 16
    ensures HexDigitOf(n) == HEX_DIGITS[n] as int
  {
  }

  /** What was done is written bare exactly when both of its halves could be inside quotes. */
  lemma {:induction false} OpIs(e: Event)
    ensures (OpToken(e) == Ascii("op=") + e.service + Ascii(":") + e.verb) <==>
            forall i :: 0 <= i < |e.service + e.verb| ==> !Awkward((e.service + e.verb)[i])
  {
    var bare, both := Ascii("op=") + (e.service + Ascii(":") + e.verb), e.service + e.verb;
    assert bare == Ascii("op=") + e.service + Ascii(":") + e.verb;
    assert forall i :: 0 <= i < |e.service| ==> both[i] == e.service[i];
    assert forall i :: 0 <= i < |e.verb| ==> both[|e.service| + i] == e.verb[i];
    assert forall b: byte :: Awkward(b) <==> !Clean(b);
    assert Ascii(":") == [COLON];
    if NeedsEncoding(e.service) || NeedsEncoding(e.verb) {
      OpEncoded(e);
    }
  }

  lemma {:induction false} OpEncoded(e: Event)
    requires NeedsEncoding(e.service) || NeedsEncoding(e.verb)
    ensures OpToken(e) != Ascii("op=") + (e.service + [COLON] + e.verb)
  {
    hide Hex;
    NamesOk();
    var v := OpValue(e);
    assert forall i :: 0 <= i < |e.service| ==> v[i] == e.service[i];
    assert forall i :: 0 <= i < |e.verb| ==> v[|e.service| + 1 + i] == e.verb[i];
    assert NeedsEncoding(v);
    assert |OpToken(e)| == 3 + 2 * |v|;
  }

  // ----- whole records

  predicate AllTokensOk(ts: seq<bytes>) {
    forall i :: 0 <= i < |ts| ==> TokenOk(ts[i])
  }

  /** A list of tokens that reads as a list of facts. */
  predicate Says(ts: seq<bytes>, facts: seq<(bytes, bytes)>) {
    AllTokensOk(ts) && ReadTokens(ts) == Some(facts)
  }

  lemma {:induction false} SaysOne(t: bytes, fact: (bytes, bytes))
    requires TokenOk(t) && ReadToken(t) == Some(fact)
    ensures Says([t], [fact])
  {
    hide ReadToken;
    assert [t][..0] == [];
    assert ReadTokens([]) == Some([]);
    Empties([fact]);
  }

  lemma {:induction false} SaysNothing()
    ensures Says([], [])
  {
  }

  lemma {:induction false} SaysBoth(a: seq<bytes>, f: seq<(bytes, bytes)>, b: seq<bytes>, g: seq<(bytes, bytes)>)
    requires Says(a, f) && Says(b, g)
    ensures Says(a + b, f + g)
    decreases |b|
  {
    hide ReadToken, TokenOk;
    if b == [] {
      Empties(a);
      Empties(f);
    } else {
      var front := b[..|b| - 1];
      assert ReadTokens(front).Some?;
      var h := ReadTokens(front).value;
      var last := ReadToken(b[|b| - 1]).value;
      SaysBoth(a, f, front, h);
      assert (a + b)[..|a + b| - 1] == a + front;
      AppendAppend(f, h, [last]);
    }
  }

  lemma {:induction false} OptionalSays(key: string, v: Option<bytes>)
    requires KeyOk(Ascii(key))
    ensures Says(Optional(key, v), OptionalFact(key, v))
  {
    hide Says, Ascii, KeyOk, Token;
    if v.Some? {
      TokenReads(Ascii(key), v.value);
      SaysOne(Token(Ascii(key), v.value), (Ascii(key), v.value));
    } else {
      SaysNothing();
    }
  }

  lemma {:induction false} FieldsSay(fields: seq<(string, bytes)>)
    ensures Says(FieldTokens(fields), FieldFacts(fields))
    decreases |fields|
  {
    hide Says, Token, SanitizeKey, KeyOk;
    if fields == [] {
      SaysNothing();
    } else {
      var front := fields[..|fields| - 1];
      var (key, v) := fields[|fields| - 1];
      FieldsSay(front);
      SanitizedOk(key);
      TokenReads(SanitizeKey(key), v);
      SaysOne(Token(SanitizeKey(key), v), (SanitizeKey(key), v));
      SaysBoth(FieldTokens(front), FieldFacts(front), [Token(SanitizeKey(key), v)], [(SanitizeKey(key), v)]);
    }
  }

  /** The tokens of an event say exactly what the event says. */
  lemma {:induction false} TokensSay(e: Event)
    ensures Says(Tokens(e), Facts(e))
  {
    hide Says, Ascii, KeyOk, OpToken, OpValue, ResToken, Optional, OptionalFact, FieldTokens, FieldFacts, Decimal,
         TokenOk, ReadToken;
    NamesOk();
    OpReads(e);
    SaysOne(OpToken(e), (Ascii("op"), OpValue(e)));
    OptionalSays("acct", e.principal.user);
    OptionalSays("addr", e.principal.addr);
    OptionalSays("cred", e.principal.cred);
    FieldsSay(e.fields);
    ResReads(e.success);
    SaysOne(ResToken(e.success), (Ascii("res"), Ascii(if e.success then "success" else "failed")));
    UidSays(e.principal.uid);
    var ts, fs := [OpToken(e)], [(Ascii("op"), OpValue(e))];
    SaysBoth(ts, fs, Optional("acct", e.principal.user), OptionalFact("acct", e.principal.user));
    ts, fs := ts + Optional("acct", e.principal.user), fs + OptionalFact("acct", e.principal.user);
    SaysBoth(ts, fs, UidToken(e.principal.uid), UidFact(e.principal.uid));
    ts, fs := ts + UidToken(e.principal.uid), fs + UidFact(e.principal.uid);
    SaysBoth(ts, fs, Optional("addr", e.principal.addr), OptionalFact("addr", e.principal.addr));
    ts, fs := ts + Optional("addr", e.principal.addr), fs + OptionalFact("addr", e.principal.addr);
    SaysBoth(ts, fs, Optional("cred", e.principal.cred), OptionalFact("cred", e.principal.cred));
    ts, fs := ts + Optional("cred", e.principal.cred), fs + OptionalFact("cred", e.principal.cred);
    SaysBoth(ts, fs, FieldTokens(e.fields), FieldFacts(e.fields));
    ts, fs := ts + FieldTokens(e.fields), fs + FieldFacts(e.fields);
    SaysBoth(ts, fs, [ResToken(e.success)], [(Ascii("res"), Ascii(if e.success then "success" else "failed"))]);
  }

  lemma {:induction false} UidSays(uid: Option<nat>)
    ensures Says(UidToken(uid), UidFact(uid))
  {
    hide Says, Ascii, Decimal, ReadToken, TokenOk;
    if uid.Some? {
      UidReads(uid.value);
      SaysOne(Ascii("acct_uid=") + [QUOTE] + Decimal(uid.value) + [QUOTE], (Ascii("acct_uid"), Decimal(uid.value)));
    } else {
      SaysNothing();
    }
  }

  // ----- splitting at spaces

  /** Splitting a record at its spaces gives back its tokens. */
  lemma {:induction false} SplitsIntoTokens(ts: seq<bytes>)
    requires ts != [] && AllTokensOk(ts)
    ensures Appended([], ts) != [] && Split(Appended([], ts), SP, 0, 0) == ts
    decreases |ts|
  {
    hide Split;
    var front, last := ts[..|ts| - 1], ts[|ts| - 1];
    assert TokenOk(last);
    if front == [] {
      Empties(last);
      OneToken(last);
      assert ts == [last];
    } else {
      SplitsIntoTokens(front);
      SplitMore(Appended([], front), last, SP, 0, 0);
      assert ts == front + [last];
    }
  }

  lemma {:induction false} OneToken(t: bytes)
    requires TokenOk(t)
    ensures Split(t, SP, 0, 0) == [t]
  {
    SplitAhead(t, SP, 0, 0, |t|);
    assert t[0..|t|] == t;
  }

  /** Every byte of a record is printable, and none is an apostrophe: it stays one line inside one quote. */
  lemma {:induction false} RecordIsPrintable(ts: seq<bytes>, i: nat)
    requires AllTokensOk(ts) && i < |Appended([], ts)|
    ensures 0x20 <= Appended([], ts)[i] <= 0x7E && Appended([], ts)[i] != APOSTROPHE
    decreases |ts|
  {
    var front, last := ts[..|ts| - 1], ts[|ts| - 1];
    var before := Appended([], front);
    assert TokenOk(last);
    var pre := if before == [] then [] else before + [SP];
    if i < |pre| {
      assert Appended([], ts)[i] == pre[i];
      if i < |before| {
        RecordIsPrintable(front, i);
      }
    } else {
      assert Appended([], ts)[i] == last[i - |pre|];
    }
  }

  function UidFact(uid: Option<nat>): seq<(bytes, bytes)> {
    match uid
    case None => []
    case Some(n) => [(Ascii("acct_uid"), Decimal(n))]
  }

  /**
    A record rendered into an empty buffer is recoverable: split at spaces it has one token for each present
    field, the tokens read back as the event's own values under its sanitized names, in order and the outcome
    last; and no byte of it can end the line or the quote around it.
  */
  lemma {:induction false} RecordReads(e: Event)
    ensures var out := Appended([], Tokens(e));
            && Split(out, SP, 0, 0) == Tokens(e)
            && ReadTokens(Split(out, SP, 0, 0)) == Some(Facts(e))
            && forall i :: 0 <= i < |out| ==> 0x20 <= out[i] <= 0x7E && out[i] != APOSTROPHE
  {
    hide Tokens, Facts, Split, TokenOk, ReadTokens, Appended;
    TokensSay(e);
    assert Tokens(e) != [] by { SomeTokens(e); }
    SplitsIntoTokens(Tokens(e));
    var out := Appended([], Tokens(e));
    forall i | 0 <= i < |out|
      ensures 0x20 <= out[i] <= 0x7E && out[i] != APOSTROPHE
    {
      RecordIsPrintable(Tokens(e), i);
    }
  }

  lemma {:induction false} SomeTokens(e: Event)
    ensures Tokens(e) != []
  {
    hide Ascii, OpToken, Optional, UidToken, FieldTokens, ResToken;
  }

  // ----- as it runs

  method Separate(out: bytes) returns (r: bytes)
    ensures r == if out == [] then [] else out + [SP]
  {
    r := if out == [] then out else out + [SP];
  }

  lemma {:induction false} AppendedSnoc(out: bytes, ts: seq<bytes>, t: bytes)
    ensures Appended(out, ts + [t]) == (if Appended(out, ts) == [] then [] else Appended(out, ts) + [SP]) + t
  {
    assert (ts + [t])[..|ts|] == ts;
  }

  method EncodeNv(out: bytes, key: bytes, v: bytes) returns (r: bytes)
    ensures r == (if out == [] then [] else out + [SP]) + Token(key, v)
  {
    hide NeedsEncoding;
    r := Separate(out);
    ghost var pre := r;
    r := r + key + [EQUALS];
    if NeedsEncoding(v) {
      hide Hex;
      ghost var head := r;
      Empties(head);
      NoHex();
      for i := 0 to |v|
        invariant r == head + Hex(v[..i])
      {
        HexMore(v, i);
        AppendAppend(head, Hex(v[..i]), [HexDigitOf(v[i] / 16), HexDigitOf(v[i] % 16)]);
        r := r + [HexDigitOf(v[i] / 16), HexDigitOf(v[i] % 16)];
      }
      assert v[..|v|] == v;
      AppendAppend(pre + key, [EQUALS], Hex(v));
      AppendAppend(pre, key, [EQUALS] + Hex(v));
    } else {
      r := r + [QUOTE] + v + [QUOTE];
      assert r == pre + (key + [EQUALS] + ([QUOTE] + v + [QUOTE]));
    }
    TokenIs(key, v);
    assert pre + (key + ([EQUALS] + Encoded(v))) == pre + Token(key, v);
  }

  lemma {:induction false} HexMore(v: bytes, i: nat)
    requires i < |v|
    ensures Hex(v[..i + 1]) == Hex(v[..i]) + [HexDigitOf(v[i] / 16), HexDigitOf(v[i] % 16)]
  {
    assert v[..i + 1][..i] == v[..i] && v[..i + 1][i] == v[i];
    HexSnoc(v[..i + 1]);
  }

  lemma {:induction false} TokenIs(key: bytes, v: bytes)
    ensures Token(key, v) == key + ([EQUALS] + Encoded(v))
    ensures Encoded(v) == if NeedsEncoding(v) then Hex(v) else [QUOTE] + v + [QUOTE]
  {
    hide NeedsEncoding, Hex;
    AppendAppend(key, [EQUALS], Encoded(v));
  }

  method PushOptional(out: bytes, key: string, v: Option<bytes>, ghost base: bytes, ghost ts: seq<bytes>)
    returns (r: bytes)
    requires out == Appended(base, ts)
    ensures r == Appended(base, ts + Optional(key, v))
  {
    hide Token, Appended;
    Empties(ts);
    r := out;
    if v.Some? {
      r := EncodeNv(out, Ascii(key), v.value);
      AppendedSnoc(base, ts, Token(Ascii(key), v.value));
    }
  }

  method PushFields(out: bytes, fields: seq<(string, bytes)>, ghost base: bytes, ghost ts: seq<bytes>)
    returns (r: bytes)
    requires out == Appended(base, ts)
    ensures r == Appended(base, ts + FieldTokens(fields))
  {
    hide Token, Appended, SanitizeKey;
    Empties(ts);
    r := out;
    for i := 0 to |fields|
      invariant r == Appended(base, ts + FieldTokens(fields[..i]))
    {
      assert fields[..i + 1][..i] == fields[..i] && fields[..i + 1][i] == fields[i];
      ghost var t := Token(SanitizeKey(fields[i].0), fields[i].1);
      AppendedSnoc(base, ts + FieldTokens(fields[..i]), t);
      AppendAppend(ts, FieldTokens(fields[..i]), [t]);
      if PlainKey(fields[i].0) {
        SanitizedIs(fields[i].0);
        r := EncodeNv(r, Ascii(fields[i].0), fields[i].1);
      } else {
        r := EncodeNv(r, SanitizeKey(fields[i].0), fields[i].1);
      }
    }
    assert fields[..|fields|] == fields;
  }

  method PushOp(out: bytes, e: Event) returns (r: bytes)
    ensures r == (if out == [] then [] else out + [SP]) + OpToken(e)
  {
    hide NeedsEncoding, Ascii;
    if NeedsEncoding(e.service) || NeedsEncoding(e.verb) {
      r := EncodeNv(out, Ascii("op"), e.service + [COLON] + e.verb);
    } else {
      r := Separate(out);
      ghost var pre := r;
      r := r + Ascii("op=") + e.service + [COLON] + e.verb;
      assert r == pre + (Ascii("op=") + (e.service + [COLON] + e.verb));
    }
  }

  /** Append an event's record to a buffer. */
  method WriteMessage(e: Event, out: bytes) returns (r: bytes)
    requires e.principal.uid.Some? ==> e.principal.uid.value <= U64_MAX
    ensures r == Appended(out, Tokens(e))
  {
    hide OpToken, Optional, FieldTokens, Ascii, ResToken, Appended, Decimal;
    ghost var ts := [];
    AppendedNone(out);
    AppendedSnoc(out, ts, OpToken(e));
    r := PushOp(out, e);
    ts := [OpToken(e)];
    Empties([OpToken(e)]);
    r := PushOptional(r, "acct", e.principal.user, out, ts);
    ts := ts + Optional("acct", e.principal.user);
    r := PushUid(r, e.principal.uid, out, ts);
    ts := ts + UidToken(e.principal.uid);
    r := PushOptional(r, "addr", e.principal.addr, out, ts);
    ts := ts + Optional("addr", e.principal.addr);
    r := PushOptional(r, "cred", e.principal.cred, out, ts);
    ts := ts + Optional("cred", e.principal.cred);
    r := PushFields(r, e.fields, out, ts);
    ts := ts + FieldTokens(e.fields);
    AppendedSnoc(out, ts, ResToken(e.success));
    r := Separate(r);
    r := r + WriteOutcome(e.success);
  }

  lemma {:induction false} AppendedNone(out: bytes)
    ensures Appended(out, []) == out
  {
  }

  function WriteOutcome(success: bool): (r: bytes)
    ensures r == ResToken(success)
  {
    if success then Ascii("res=success") else Ascii("res=failed")
  }

  method PushUid(out: bytes, uid: Option<nat>, ghost base: bytes, ghost ts: seq<bytes>) returns (r: bytes)
    requires out == Appended(base, ts) && (uid.Some? ==> uid.value <= U64_MAX)
    ensures r == Appended(base, ts + UidToken(uid))
  {
    hide Appended, Ascii, Decimal;
    Empties(ts);
    r := out;
    if uid.Some? {
      var token := PushDecimal(Ascii("acct_uid=") + [QUOTE], uid.value);
      token := token + [QUOTE];
      AppendedSnoc(base, ts, token);
      r := Separate(out);
      r := r + token;
    }
  }
}
