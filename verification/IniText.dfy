/** Lines, whitespace and names as the configuration parser sees them. */
module IniText {
  import opened Bytes

  /** Whitespace as Python counts it: Unicode's White_Space, and the four ASCII separators. */
  predicate IsSpace(c: char) {
    var n := c as int;
    || 0x09 <= n <= 0x0D || 0x1C <= n <= 0x20 || n == 0x85 || n == 0xA0 || n == 0x1680
    || 0x2000 <= n <= 0x200A || n == 0x2028 || n == 0x2029 || n == 0x202F || n == 0x205F || n == 0x3000
  }

  /** The 25 characters of Unicode's White_Space, and U+001C to U+001F. */
  const SPACES: seq<int> := [
    0x09, 0x0A, 0x0B, 0x0C, 0x0D, 0x20, 0x85, 0xA0, 0x1680, 0x2000, 0x2001, 0x2002, 0x2003, 0x2004, 0x2005, 0x2006,
    0x2007, 0x2008, 0x2009, 0x200A, 0x2028, 0x2029, 0x202F, 0x205F, 0x3000, 0x1C, 0x1D, 0x1E, 0x1F]

  lemma {:induction false} SpaceIff(c: char)
    ensures IsSpace(c) <==> c as int in SPACES
  {
  }

  predicate AllSpace(s: string) {
    forall i :: 0 <= i < |s| ==> IsSpace(s[i])
  }

  /** The first position from `i` on that is not whitespace. */
  function SkipSpaces(s: string, i: nat): (r: nat)
    requires i <= |s|
    ensures i <= r <= |s|
    ensures r < |s| ==> !IsSpace(s[r])
    ensures forall k :: i <= k < r ==> IsSpace(s[k])
    decreases |s| - i
  {
    if i < |s| && IsSpace(s[i]) then SkipSpaces(s, i + 1) else i
  }

  /** The end of `s[lo..hi]` once trailing whitespace is dropped. */
  function DropSpaces(s: string, lo: nat, hi: nat): (r: nat)
    requires lo <= hi <= |s|
    ensures lo <= r <= hi
    ensures lo < r ==> !IsSpace(s[r - 1])
    ensures forall k :: r <= k < hi ==> IsSpace(s[k])
    decreases hi - lo
  {
    if lo < hi && IsSpace(s[hi - 1]) then DropSpaces(s, lo, hi - 1) else hi
  }

  function Strip(s: string): string {
    var lo := SkipSpaces(s, 0);
    s[lo..DropSpaces(s, lo, |s|)]
  }

  function Rstrip(s: string): string {
    s[..DropSpaces(s, 0, |s|)]
  }

  /** Nothing to strip. */
  predicate Stripped(s: string) {
    s == "" || (!IsSpace(s[0]) && !IsSpace(s[|s| - 1]))
  }

  lemma {:induction false} StripsToStripped(s: string)
    ensures Stripped(Strip(s))
  {
  }

  lemma {:induction false} SkipsAll(a: string, m: string)
    requires AllSpace(a) && (m == "" || !IsSpace(m[0]))
    ensures SkipSpaces(a + m, 0) == |a|
  {
    var s := a + m;
    assert forall k :: 0 <= k < |a| ==> IsSpace(s[k]);
    assert m != "" ==> !IsSpace(s[|a|]);
  }

  lemma {:induction false} DropsAll(m: string, b: string, lo: nat)
    requires AllSpace(b) && lo <= |m| && (lo == |m| || !IsSpace(m[|m| - 1]))
    ensures DropSpaces(m + b, lo, |m + b|) == |m|
  {
    var s := m + b;
    assert forall k :: |m| <= k < |s| ==> IsSpace(s[k]);
    assert lo < |m| ==> !IsSpace(s[|m| - 1]);
  }

  /** What a stripped text surrounded by whitespace strips to. */
  lemma {:induction false} StripSurrounded(a: string, m: string, b: string)
    requires AllSpace(a) && Stripped(m) && AllSpace(b)
    ensures Strip(a + m + b) == m
    ensures m != "" ==> SkipSpaces(a + m + b, 0) == |a|
  {
    if m == "" {
      assert a + m + b == (a + b) + "";
      SkipsAll(a + b, "");
      assert DropSpaces(a + m + b, |a + b|, |a + b|) == |a + b|;
    } else {
      AppendAppend(a, m, b);
      SkipsAll(a, m + b);
      DropsAll(a + m, b, |a|);
      assert (a + m + b)[|a|..|a + m|] == m;
    }
  }

  lemma {:induction false} StripOfStripped(m: string)
    requires Stripped(m)
    ensures Strip(m) == m && Rstrip(m) == m
  {
    StripSurrounded("", m, "");
    Empties(m);
    DropsAll(m, "", 0);
    assert m[..|m|] == m;
  }

  /** Any text is whitespace, what it strips to, and whitespace. */
  lemma {:induction false} StripParts(s: string) returns (a: string, b: string)
    ensures s == a + Strip(s) + b && AllSpace(a) && AllSpace(b)
  {
    var lo := SkipSpaces(s, 0);
    var hi := DropSpaces(s, lo, |s|);
    a, b := s[..lo], s[hi..];
  }

  lemma {:induction false} Regroup(a: string, x: string, m: string, y: string, b: string)
    ensures a + (x + m + y) + b == a + x + m + (y + b)
  {
    AppendAppend(a, x + m, y);
    AppendAppend(a, x, m);
    AppendAppend(a + x + m, y, b);
  }

  /** Whitespace around a text does not change what it strips to. */
  lemma {:induction false} StripIgnores(a: string, s: string, b: string)
    requires AllSpace(a) && AllSpace(b)
    ensures Strip(a + s + b) == Strip(s)
  {
    hide Strip, Stripped;
    StripsToStripped(s);
    var x, y := StripParts(s);
    var m := Strip(s);
    assert AllSpace(a + x) && AllSpace(y + b);
    hide AllSpace;
    Regroup(a, x, m, y, b);
    StripSurrounded(a + x, m, y + b);
  }

  /** Leading text that stays: only the end is stripped. */
  lemma {:induction false} StripEnd(m: string, s: string) returns (kept: string, b: string)
    requires m != "" && Stripped(m)
    ensures s == kept + b && AllSpace(b) && Strip(m + s) == m + kept
    ensures Strip(s) == Strip(kept) && (kept == "" || !IsSpace(kept[|kept| - 1]))
  {
    kept, b := RstripParts(s);
    assert AllSpace("");
    hide IsSpace, AllSpace, Strip;
    Empties(kept);
    StripIgnores("", kept, b);
    AppendAppend(m, kept, b);
    Empties(m + kept);
    StripSurrounded("", m + kept, b);
  }

  lemma {:induction false} RstripParts(s: string) returns (kept: string, b: string)
    ensures s == kept + b && AllSpace(b) && (kept == "" || !IsSpace(kept[|kept| - 1]))
  {
    var n := DropSpaces(s, 0, |s|);
    kept, b := s[..n], s[n..];
  }

  // ----- lines

  predicate NoBreak(s: string) {
    forall i :: 0 <= i < |s| ==> s[i] != '\n'
  }

  /** The last `c` in `s[..n]`. */
  function FindLast(s: string, c: char, n: nat): (r: Option<nat>)
    requires n <= |s|
    ensures r.Some? ==> r.value < n && s[r.value] == c && forall k :: r.value < k < n ==> s[k] != c
    ensures r.None? ==> forall k :: 0 <= k < n ==> s[k] != c
  {
    if n == 0 then None else if s[n - 1] == c then Some(n - 1) else FindLast(s, c, n - 1)
  }

  /** The text's lines with their line breaks, as iteration yields them: no empty line after a final break. */
  function Lines(s: string): (r: seq<string>)
    decreases |s|
  {
    if s == "" then []
    else
      match FindLast(s, '\n', |s| - 1)
      case None => [s]
      case Some(i) => Lines(s[..i + 1]) + [s[i + 1..]]
  }

  /** A text whose last line is `line`. */
  lemma {:induction false} LinesSnoc(s: string, line: string)
    requires s == "" || s[|s| - 1] == '\n'
    requires line != "" && forall i :: 0 <= i < |line| - 1 ==> line[i] != '\n'
    ensures Lines(s + line) == Lines(s) + [line]
  {
    var t := s + line;
    var r := FindLast(t, '\n', |t| - 1);
    if s == "" {
      assert t == line;
      Empties([line]);
      assert r.None?;
    } else {
      assert t[|s| - 1] == '\n';
      assert forall k :: |s| <= k < |t| - 1 ==> t[k] == line[k - |s|];
      assert r == Some(|s| - 1);
      Halves(s, line);
    }
  }

  /** A value's lines, without their breaks: one more than it has breaks. */
  function SplitLines(s: string): (r: seq<string>)
    ensures r != []
    decreases |s|
  {
    match FindLast(s, '\n', |s|)
    case None => [s]
    case Some(i) => SplitLines(s[..i]) + [s[i + 1..]]
  }

  function JoinLines(ls: seq<string>): string
    requires ls != []
  {
    if |ls| == 1 then ls[0] else JoinLines(ls[..|ls| - 1]) + "\n" + ls[|ls| - 1]
  }

  lemma {:induction false} JoinSnoc(ls: seq<string>, l: string)
    requires ls != []
    ensures JoinLines(ls + [l]) == JoinLines(ls) + "\n" + l
  {
    assert (ls + [l])[..|ls|] == ls;
  }

  lemma {:induction false} SplitSnoc(s: string, l: string)
    requires NoBreak(l)
    ensures SplitLines(s + "\n" + l) == SplitLines(s) + [l]
  {
    var t := s + "\n" + l;
    assert t[|s|] == '\n';
    assert forall k :: |s| < k < |t| ==> t[k] == l[k - |s| - 1];
    assert FindLast(t, '\n', |t|) == Some(|s|);
    assert t[..|s|] == s && t[|s| + 1..] == l;
  }

  lemma {:induction false} JoinSplit(s: string)
    ensures JoinLines(SplitLines(s)) == s
    decreases |s|
  {
    match FindLast(s, '\n', |s|)
    case None =>
    case Some(i) =>
      JoinSplit(s[..i]);
      JoinSnoc(SplitLines(s[..i]), s[i + 1..]);
      assert s == s[..i] + "\n" + s[i + 1..];
  }

  predicate AllNoBreak(ls: seq<string>) {
    forall i :: 0 <= i < |ls| ==> NoBreak(ls[i])
  }

  lemma {:induction false} SplitIsBroken(s: string)
    ensures AllNoBreak(SplitLines(s))
    decreases |s|
  {
    match FindLast(s, '\n', |s|)
    case None =>
    case Some(i) => SplitIsBroken(s[..i]);
  }

  lemma {:induction false} SplitJoin(ls: seq<string>)
    requires ls != [] && AllNoBreak(ls)
    ensures SplitLines(JoinLines(ls)) == ls
    decreases |ls|
  {
    if |ls| == 1 {
      assert FindLast(ls[0], '\n', |ls[0]|).None?;
    } else {
      var front, l := ls[..|ls| - 1], ls[|ls| - 1];
      SplitJoin(front);
      SplitSnoc(JoinLines(front), l);
    }
  }
}
