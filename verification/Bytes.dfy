/** Bytes, and the byte-level rules the HTTP codec's readers and writers share. */
module Bytes {
  type byte = b: int | 0 <= b < 256
  type bytes = seq<byte>

  /** The largest value of a 64-bit `usize`. */
  const USIZE_MAX: nat := 0xFFFF_FFFF_FFFF_FFFF

  const CR: byte := 13
  const LF: byte := 10
  const SP: byte := 32
  const HTAB: byte := 9
  const COLON: byte := 58
  const SEMICOLON: byte := 59
  const CRLF: bytes := [CR, LF]

  datatype Option<+T> = None | Some(value: T)

  function Min(a: nat, b: nat): nat {
    if a <= b then a else b
  }

  function Flatten<T>(ss: seq<seq<T>>): seq<T> {
    if ss == [] then [] else ss[0] + Flatten(ss[1..])
  }

  lemma {:induction false} DropAppend<T>(a: seq<T>, b: seq<T>, n: nat)
    requires n <= |a|
    ensures (a + b)[n..] == a[n..] + b
  {
  }

  lemma {:induction false} TakeAppend<T>(a: seq<T>, b: seq<T>, n: nat)
    requires n <= |a|
    ensures (a + b)[..n] == a[..n]
  {
  }

  lemma {:induction false} Halves<T>(a: seq<T>, b: seq<T>)
    ensures (a + b)[..|a|] == a && (a + b)[|a|..] == b
  {
  }

  lemma {:induction false} TakeSplit<T>(s: seq<T>, i: nat, j: nat)
    requires i + j <= |s|
    ensures s[..i + j] == s[..i] + s[i..][..j]
  {
  }

  lemma {:induction false} Empties<T>(a: seq<T>)
    ensures [] + a == a && a + [] == a
  {
  }

  lemma {:induction false} DropDrop<T>(s: seq<T>, i: nat, j: nat)
    requires i + j <= |s|
    ensures s[i..][j..] == s[i + j..]
  {
  }

  lemma {:induction false} AppendAppend<T>(a: seq<T>, b: seq<T>, c: seq<T>)
    ensures a + b + c == a + (b + c)
  {
  }

  predicate IsDigit(b: byte) {
    48 <= b <= 57
  }

  predicate IsAlpha(b: byte) {
    65 <= b <= 90 || 97 <= b <= 122
  }

  /** A byte of an RFC 9110 `token`, the field-name grammar. */
  predicate IsTokenByte(b: byte) {
    || IsDigit(b)
    || IsAlpha(b)
    || b == 33 || 35 <= b <= 39 || b == 42 || b == 43 || b == 45 || b == 46
    || 94 <= b <= 96 || b == 124 || b == 126
  }

  const DELIMITERS: string := "\"(),/:;<=>?@[\\]{}"

  /** Visible ASCII but the delimiters (section 5.6.2 of RFC 9110). */
  lemma {:induction false} TokenByteIff(b: byte)
    ensures IsTokenByte(b) <==> 33 <= b <= 126 && forall i :: 0 <= i < |DELIMITERS| ==> b != DELIMITERS[i] as int
  {
    var d := DELIMITERS;
    assert d[0] == '\"' && d[1] == '(' && d[2] == ')' && d[3] == ',' && d[4] == '/' && d[5] == ':' && d[6] == ';';
    assert d[7] == '<' && d[8] == '=' && d[9] == '>' && d[10] == '?' && d[11] == '@' && d[12] == '[' && d[13] == '\\';
    assert d[14] == ']' && d[15] == '{' && d[16] == '}';
  }

  predicate IsToken(s: bytes) {
    s != [] && forall i :: 0 <= i < |s| ==> IsTokenByte(s[i])
  }

  /** A byte no field line may carry: a C0 control other than HTAB, or DEL. */
  predicate IsFieldBreak(b: byte) {
    (b < 32 && b != HTAB) || b == 127
  }

  predicate HasFieldBreak(value: bytes) {
    exists i :: 0 <= i < |value| && IsFieldBreak(value[i])
  }

  /** A byte of a field value (section 5.5 of RFC 9110): visible, blank, tab, or beyond ASCII. */
  predicate IsFieldByte(b: byte) {
    b == ' ' as int || b == '\t' as int || 33 <= b <= 126 || b >= 128
  }

  lemma {:induction false} FieldBreakIff(value: bytes)
    ensures !HasFieldBreak(value) <==> forall i :: 0 <= i < |value| ==> IsFieldByte(value[i])
  {
  }

  function LowerByte(b: byte): byte {
    if 65 <= b <= 90 then b + 32 else b
  }

  /** ASCII lower-casing, byte by byte. */
  function Lower(s: bytes): (r: bytes)
    ensures |r| == |s|
  {
    seq(|s|, i requires 0 <= i < |s| => LowerByte(s[i]))
  }

  predicate EqIgnoreCase(a: bytes, b: bytes) {
    Lower(a) == Lower(b)
  }

  /** The same byte, or one letter of the ASCII alphabet in its two cases. */
  predicate SameLetter(a: byte, b: byte) {
    || a == b
    || ('A' as int <= a <= 'Z' as int && b - 'a' as int == a - 'A' as int)
    || ('A' as int <= b <= 'Z' as int && a - 'a' as int == b - 'A' as int)
  }

  /** Ignoring case is comparing letter by letter. */
  lemma {:induction false} EqIgnoreCaseIff(a: bytes, b: bytes)
    ensures EqIgnoreCase(a, b) <==> |a| == |b| && forall i :: 0 <= i < |a| ==> SameLetter(a[i], b[i])
  {
    if |a| == |b| {
      assert forall i :: 0 <= i < |a| ==> (Lower(a)[i] == Lower(b)[i] <==> SameLetter(a[i], b[i]));
    }
  }

  predicate IsAsciiSpace(b: byte) {
    b == 9 || b == 10 || b == 12 || b == 13 || b == 32
  }

  lemma {:induction false} AsciiSpaceIff(b: byte)
    ensures IsAsciiSpace(b) <==> b as char in " \t\n\U{C}\r"
  {
  }

  /** The first index at or after `i` that is not ASCII whitespace. */
  function SkipSpace(s: bytes, i: nat): (r: nat)
    requires i <= |s|
    ensures i <= r <= |s|
    ensures r < |s| ==> !IsAsciiSpace(s[r])
    ensures forall k :: i <= k < r ==> IsAsciiSpace(s[k])
    decreases |s| - i
  {
    if i < |s| && IsAsciiSpace(s[i]) then SkipSpace(s, i + 1) else i
  }

  /** The least end of `s[lo..hi]` once trailing ASCII whitespace is dropped. */
  function DropSpace(s: bytes, lo: nat, hi: nat): (r: nat)
    requires lo <= hi <= |s|
    ensures lo <= r <= hi
    ensures lo < r ==> !IsAsciiSpace(s[r - 1])
    ensures forall k :: r <= k < hi ==> IsAsciiSpace(s[k])
    decreases hi - lo
  {
    if lo < hi && IsAsciiSpace(s[hi - 1]) then DropSpace(s, lo, hi - 1) else hi
  }

  /** `trim_ascii`: both edges stripped of ASCII whitespace. */
  function Trim(s: bytes): bytes {
    var lo := SkipSpace(s, 0);
    s[lo..DropSpace(s, lo, |s|)]
  }

  /** What is trimmed is the white space around, and no more. */
  lemma {:induction false} TrimAround(before: bytes, value: bytes, after: bytes)
    requires forall i :: 0 <= i < |before| ==> IsAsciiSpace(before[i])
    requires forall i :: 0 <= i < |after| ==> IsAsciiSpace(after[i])
    requires value != [] ==> !IsAsciiSpace(value[0]) && !IsAsciiSpace(value[|value| - 1])
    ensures Trim(before + value + after) == value
  {
    var s, b, e := before + value + after, |before|, |before| + |value|;
    assert forall i :: 0 <= i < b ==> s[i] == before[i];
    assert forall i :: b <= i < e ==> s[i] == value[i - b];
    assert forall i :: e <= i < |s| ==> s[i] == after[i - e];
    var lo := SkipSpace(s, 0);
    var hi := DropSpace(s, lo, |s|);
    if value == [] {
      assert lo == |s|;
    } else {
      assert s[b] == value[0] && s[e - 1] == value[|value| - 1];
      assert lo == b;
      assert hi == e;
    }
  }

  /** Where the first byte equal to `b` at or after `i` sits. */
  function FindFrom<T(==)>(s: seq<T>, b: T, i: nat): (r: Option<nat>)
    requires i <= |s|
    ensures r.Some? ==> i <= r.value < |s| && s[r.value] == b && forall k :: i <= k < r.value ==> s[k] != b
    ensures r.None? ==> forall k :: i <= k < |s| ==> s[k] != b
    decreases |s| - i
  {
    if i == |s| then None
    else if s[i] == b then Some(i)
    else FindFrom(s, b, i + 1)
  }

  predicate CrlfAt(s: bytes, i: int) {
    0 <= i < |s| - 1 && s[i] == CR && s[i + 1] == LF
  }

  /** The first CRLF of `s` at or after `i`. */
  function FirstCrlf(s: bytes, i: nat): (r: Option<nat>)
    requires i <= |s|
    ensures r.Some? ==> i <= r.value && CrlfAt(s, r.value) && forall j :: i <= j < r.value ==> !CrlfAt(s, j)
    ensures r.None? ==> forall j :: i <= j ==> !CrlfAt(s, j)
    decreases |s| - i
  {
    if CrlfAt(s, i) then Some(i)
    else if i == |s| then None
    else FirstCrlf(s, i + 1)
  }

  /** Whether a CRLF-delimited line carries a CR or an LF of its own. */
  predicate HasBareCrLf(line: bytes) {
    exists i :: 0 <= i < |line| && (line[i] == CR || line[i] == LF)
  }

  /** The outcome of a CRLF search bounded by a line cap. */
  datatype CrlfSearch =
    | At(len: nat)
    | NeedMore
    | TooLong

  function FindCrlf(rest: bytes, maxLine: nat): (r: CrlfSearch)
    ensures r.At? ==> r.len <= maxLine && CrlfAt(rest, r.len) && forall j :: 0 <= j < r.len ==> !CrlfAt(rest, j)
    ensures r.NeedMore? ==> |rest| < maxLine + 2
    ensures r.TooLong? ==> |rest| >= maxLine + 2
  {
    var window := rest[..Min(|rest|, maxLine + 2)];
    match FirstCrlf(window, 0)
    case Some(i) =>
      assert forall j :: 0 <= j < i ==> CrlfAt(window, j) == CrlfAt(rest, j);
      At(i)
    case None =>
      if |rest| >= maxLine + 2 then TooLong else NeedMore
  }

  /** A line up to its CRLF, and the CRLF. */
  lemma {:induction false} LineSplit(s: bytes, i: nat)
    requires CrlfAt(s, i)
    ensures s[..i + 2] == s[..i] + CRLF
  {
  }

  /** A capped line followed by its CRLF is found at its own length, whatever follows. */
  lemma {:induction false} FindCrlfOfLine(line: bytes, rest: bytes, maxLine: nat)
    requires |line| <= maxLine && !HasBareCrLf(line)
    ensures FindCrlf(line + CRLF + rest, maxLine) == At(|line|)
  {
    var s := line + CRLF + rest;
    var window := s[..Min(|s|, maxLine + 2)];
    assert CrlfAt(window, |line|);
    assert forall j :: 0 <= j < |line| ==> s[j] == line[j];
  }

  /** A decided search stays decided the same way when more bytes arrive. */
  lemma {:induction false} FindCrlfExtends(a: bytes, b: bytes, maxLine: nat)
    requires !FindCrlf(a, maxLine).NeedMore?
    ensures FindCrlf(a + b, maxLine) == FindCrlf(a, maxLine)
  {
    var wa := a[..Min(|a|, maxLine + 2)];
    var wab := (a + b)[..Min(|a + b|, maxLine + 2)];
    assert forall j :: 0 <= j < |wa| ==> wa[j] == wab[j];
    assert forall j :: 0 <= j < |wa| - 1 ==> CrlfAt(wa, j) == CrlfAt(wab, j);
  }

  // ----- text in bytes, and lists in it

  function Ascii(s: string): (r: bytes)
    ensures |r| == |s| && forall i :: 0 <= i < |s| ==> r[i] == if s[i] as int < 256 then s[i] as int else 63
  {
    seq(|s|, i requires 0 <= i < |s| => if s[i] as int < 256 then s[i] as int else 63)
  }

  /** The parts of `s[i..]` between separators, the one in progress reaching to `j`. */
  function Split(s: bytes, sep: byte, i: nat, j: nat): seq<bytes>
    requires i <= j <= |s|
    decreases |s| - j
  {
    if j == |s| then [s[i..j]]
    else if s[j] == sep then [s[i..j]] + Split(s, sep, j + 1, j + 1)
    else Split(s, sep, i, j + 1)
  }

  lemma {:induction false} SplitAhead(s: bytes, sep: byte, i: nat, j: nat, k: nat)
    requires i <= j <= k <= |s| && forall n :: j <= n < k ==> s[n] != sep
    ensures Split(s, sep, i, j) == Split(s, sep, i, k)
    decreases k - j
  {
    if j < k {
      SplitAhead(s, sep, i, j + 1, k);
    }
  }

  lemma {:induction false} SplitMore(s: bytes, t: bytes, sep: byte, i: nat, j: nat)
    requires i <= j <= |s| && forall n :: 0 <= n < |t| ==> t[n] != sep
    ensures Split(s + [sep] + t, sep, i, j) == Split(s, sep, i, j) + [t]
    decreases |s| - j
  {
    var u := s + [sep] + t;
    if j == |s| {
      assert u[j] == sep && u[i..j] == s[i..j];
      var from := |s| + 1;
      assert forall n :: from <= n < |u| ==> u[n] == t[n - from];
      SplitAhead(u, sep, from, from, |u|);
      assert u[from..|u|] == t;
    } else {
      assert u[j] == s[j] && u[i..j] == s[i..j];
      if s[j] == sep {
        SplitMore(s, t, sep, j + 1, j + 1);
        AppendAppend([s[i..j]], Split(s, sep, j + 1, j + 1), [t]);
      } else {
        SplitMore(s, t, sep, i, j + 1);
      }
    }
  }
}
