/** `%(name)s` interpolation: bounded in depth and, loosely, in size. */
module IniInterp {
  import opened Bytes
  import opened IniModel

  const MAX_DEPTH: nat := 10
  const MAX_OUTPUT: nat := 0x10_0000

  datatype Fault = TooDeep | TooLarge | BadReference | Missing | BadEscape

  datatype Outcome =
    | Done(text: string)
    | Fail(fault: Fault)

  /** The merged raw values, by option name; a valueless option is as good as missing. */
  type View = string -> Option<string>

  // ----- sizes, in UTF-8 bytes

  function CharSize(c: char): (n: nat)
    ensures 1 <= n <= 4
  {
    if c as int < 0x80 then 1 else if c as int < 0x800 then 2 else if c as int < 0x1_0000 then 3 else 4
  }

  function Size(s: string): nat {
    if s == "" then 0 else Size(s[..|s| - 1]) + CharSize(s[|s| - 1])
  }

  lemma {:induction false} SizeAppend(a: string, b: string)
    ensures Size(a + b) == Size(a) + Size(b)
    decreases |b|
  {
    if b == "" {
      Empties(a);
    } else {
      var c := b[..|b| - 1];
      assert (a + b)[..|a + b| - 1] == a + c;
      SizeAppend(a, c);
    }
  }

  lemma {:induction false} SizeSlice(s: string, i: nat, j: nat)
    requires i <= j <= |s|
    ensures Size(s[i..j]) <= Size(s)
    ensures j < |s| ==> Size(s[i..j]) < Size(s)
  {
    assert s == s[..i] + s[i..j] + s[j..];
    SizeAppend(s[..i], s[i..j]);
    SizeAppend(s[..i] + s[i..j], s[j..]);
    if j < |s| {
      assert s[j..] == s[j..|s| - 1] + [s[|s| - 1]];
      SizeAppend(s[j..|s| - 1], [s[|s| - 1]]);
      assert [s[|s| - 1]][..0] == "";
    }
  }

  // ----- references

  /** The name of the reference at `i`, and where it ends. */
  function KeyRef(s: string, i: nat): (r: Option<(string, nat)>)
    requires i + 2 <= |s|
    ensures r.Some? ==> i + 4 < r.value.1 <= |s|
  {
    match FindFrom(s, ')', i + 2)
    case None => None
    case Some(close) =>
      if close == i + 2 || close + 1 >= |s| || s[close + 1] != 's' then None else Some((s[i + 2..close], close + 2))
  }

  function Behind(t: string, o: Outcome): Outcome {
    match o
    case Done(u) => Done(t + u)
    case Fail(f) => Fail(f)
  }

  /** Depth-bounded recursive substitution, with no limit on size. */
  function Subst(view: View, s: string, i: nat, depth: nat): Outcome
    requires i <= |s|
    decreases MAX_DEPTH + 1 - Min(depth, MAX_DEPTH + 1), |s| - i
  {
    if depth > MAX_DEPTH then Fail(TooDeep)
    else
      match FindFrom(s, '%', i)
      case None => Done(s[i..])
      case Some(p) =>
        if p + 1 < |s| && s[p + 1] == '%' then Behind(s[i..p] + "%", Subst(view, s, p + 2, depth))
        else if p + 1 < |s| && s[p + 1] == '(' then
          match KeyRef(s, p)
          case None => Fail(BadReference)
          case Some((name, end)) =>
            match view(OptionXform(name))
            case None => Fail(Missing)
            case Some(value) =>
              match (if FindFrom(value, '%', 0).Some? then Subst(view, value, 0, depth + 1) else Done(value))
              case Fail(f) => Fail(f)
              case Done(text) => Behind(s[i..p] + text, Subst(view, s, end, depth))
        else Fail(BadEscape)
  }

  /** The loop as it runs: one shared output, its size tested before each round. */
  function Interpolate(view: View, s: string, i: nat, depth: nat, out: string): Outcome
    requires i <= |s|
    decreases MAX_DEPTH + 1 - Min(depth, MAX_DEPTH + 1), |s| - i
  {
    if depth > MAX_DEPTH then Fail(TooDeep)
    else if i == |s| then Done(out)
    else if Size(out) > MAX_OUTPUT then Fail(TooLarge)
    else
      match FindFrom(s, '%', i)
      case None => Done(out + s[i..])
      case Some(p) =>
        var lit := out + s[i..p];
        if p + 1 < |s| && s[p + 1] == '%' then Interpolate(view, s, p + 2, depth, lit + "%")
        else if p + 1 < |s| && s[p + 1] == '(' then
          match KeyRef(s, p)
          case None => Fail(BadReference)
          case Some((name, end)) =>
            match view(OptionXform(name))
            case None => Fail(Missing)
            case Some(value) =>
              match (if FindFrom(value, '%', 0).Some? then Interpolate(view, value, 0, depth + 1, lit)
                     else Done(lit + value))
              case Fail(f) => Fail(f)
              case Done(more) => Interpolate(view, s, end, depth, more)
        else Fail(BadEscape)
  }

  function BeforeGet(view: View, value: string): Outcome {
    Interpolate(view, value, 0, 1, "")
  }

  // ----- what it computes

  lemma {:induction false} BehindBehind(out: string, lit: string, o: Outcome)
    ensures Behind(out, Behind(lit, o)) == Behind(out + lit, o)
  {
    if o.Done? {
      AppendAppend(out, lit, o.text);
    }
  }

  lemma {:induction false} Chained(out: string, lit: string, text: string, rest: Outcome)
    ensures Behind(out + lit + text, rest) == Behind(out, Behind(lit + text, rest))
  {
    AppendAppend(out, lit, text);
    BehindBehind(out, lit + text, rest);
  }

  /** On success the output is what substitution gives, behind what was there. */
  lemma {:induction false} InterpolateSubstitutes(view: View, s: string, i: nat, depth: nat, out: string)
    requires i <= |s| && Interpolate(view, s, i, depth, out).Done?
    ensures Interpolate(view, s, i, depth, out) == Behind(out, Subst(view, s, i, depth))
    decreases MAX_DEPTH + 1 - Min(depth, MAX_DEPTH + 1), |s| - i
  {
    hide Size, OptionXform, KeyRef, FindFrom;
    if i == |s| {
      Empties(out);
      assert s[i..] == "";
    } else {
      match FindFrom(s, '%', i)
      case None =>
      case Some(p) =>
        var lit := out + s[i..p];
        if s[p + 1] == '%' {
          InterpolateSubstitutes(view, s, p + 2, depth, lit + "%");
          Chained(out, s[i..p], "%", Subst(view, s, p + 2, depth));
        } else {
          var (name, end) := KeyRef(s, p).value;
          var value := view(OptionXform(name)).value;
          var nested := FindFrom(value, '%', 0).Some?;
          var more := if nested then Interpolate(view, value, 0, depth + 1, lit).text else lit + value;
          if nested {
            InterpolateSubstitutes(view, value, 0, depth + 1, lit);
          }
          InterpolateSubstitutes(view, s, end, depth, more);
          var text := if nested then Subst(view, value, 0, depth + 1).text else value;
          assert more == lit + text;
          Chained(out, s[i..p], text, Subst(view, s, end, depth));
        }
    }
  }

  /** A substitution that fits the limit is never refused. */
  lemma {:induction false} SmallResultsSucceed(view: View, s: string, i: nat, depth: nat, out: string)
    requires i <= |s| && Subst(view, s, i, depth).Done? && Size(out + Subst(view, s, i, depth).text) <= MAX_OUTPUT
    ensures Interpolate(view, s, i, depth, out) == Done(out + Subst(view, s, i, depth).text)
    decreases MAX_DEPTH + 1 - Min(depth, MAX_DEPTH + 1), |s| - i
  {
    hide Size, OptionXform, KeyRef, FindFrom;
    SizeAppend(out, Subst(view, s, i, depth).text);
    if i == |s| {
      Empties(out);
      assert s[i..] == "";
    } else {
      match FindFrom(s, '%', i)
      case None =>
      case Some(p) =>
        var lit := out + s[i..p];
        if s[p + 1] == '%' {
          var rest := Subst(view, s, p + 2, depth).text;
          AppendAppend(out, s[i..p], "%");
          AppendAppend(out, s[i..p] + "%", rest);
          SmallResultsSucceed(view, s, p + 2, depth, lit + "%");
        } else {
          var (name, end) := KeyRef(s, p).value;
          var value := view(OptionXform(name)).value;
          var nested := FindFrom(value, '%', 0).Some?;
          var text := if nested then Subst(view, value, 0, depth + 1).text else value;
          var rest := Subst(view, s, end, depth).text;
          AppendAppend(out, s[i..p], text);
          AppendAppend(out, s[i..p] + text, rest);
          if nested {
            SizeAppend(lit + text, rest);
            SmallResultsSucceed(view, value, 0, depth + 1, lit);
          }
          SmallResultsSucceed(view, s, end, depth, lit + text);
        }
    }
  }

  // ----- what the limit refuses

  /** The largest output any test of the limit sees along a substitution. */
  function Peak(view: View, s: string, i: nat, depth: nat, out: string): nat
    requires i <= |s| && Subst(view, s, i, depth).Done?
    decreases MAX_DEPTH + 1 - Min(depth, MAX_DEPTH + 1), |s| - i
  {
    if i == |s| then 0
    else
      match FindFrom(s, '%', i)
      case None => Size(out)
      case Some(p) =>
        var lit := out + s[i..p];
        if s[p + 1] == '%' then Max(Size(out), Peak(view, s, p + 2, depth, lit + "%"))
        else
          var (name, end) := KeyRef(s, p).value;
          var value := view(OptionXform(name)).value;
          if FindFrom(value, '%', 0).Some? then
            var text := Subst(view, value, 0, depth + 1).text;
            Max(Size(out), Max(Peak(view, value, 0, depth + 1, lit), Peak(view, s, end, depth, lit + text)))
          else Max(Size(out), Peak(view, s, end, depth, lit + value))
  }

  /** A substitution is refused for its size exactly when some test sees an output over the limit. */
  lemma {:induction false} PeakDecides(view: View, s: string, i: nat, depth: nat, out: string)
    requires i <= |s| && Subst(view, s, i, depth).Done?
    ensures if Peak(view, s, i, depth, out) <= MAX_OUTPUT
            then Interpolate(view, s, i, depth, out) == Done(out + Subst(view, s, i, depth).text)
            else Interpolate(view, s, i, depth, out) == Fail(TooLarge)
    decreases MAX_DEPTH + 1 - Min(depth, MAX_DEPTH + 1), |s| - i
  {
    hide Size, OptionXform, KeyRef, FindFrom;
    if i == |s| {
      Empties(out);
      assert s[i..] == "";
    } else {
      match FindFrom(s, '%', i)
      case None =>
      case Some(p) =>
        var lit := out + s[i..p];
        if s[p + 1] == '%' {
          AppendAppend(out, s[i..p], "%");
          AppendAppend(out, s[i..p] + "%", Subst(view, s, p + 2, depth).text);
          PeakDecides(view, s, p + 2, depth, lit + "%");
        } else {
          var (name, end) := KeyRef(s, p).value;
          var value := view(OptionXform(name)).value;
          var nested := FindFrom(value, '%', 0).Some?;
          var text := if nested then Subst(view, value, 0, depth + 1).text else value;
          AppendAppend(out, s[i..p], text);
          AppendAppend(out, s[i..p] + text, Subst(view, s, end, depth).text);
          if nested {
            PeakDecides(view, value, 0, depth + 1, lit);
          }
          PeakDecides(view, s, end, depth, lit + text);
        }
    }
  }

  /** So many plain characters. */
  function Plain(n: nat): (s: string)
    ensures |s| == n && Size(s) == n && '%' !in s
  {
    if n == 0 then "" else Plain(n - 1) + "x"
  }

  /** The limit is not a bound on the output: the last push is never tested. */
  lemma {:induction false} LimitIsNoBound(view: View, n: nat)
    ensures BeforeGet(view, Plain(n)) == Done(Plain(n)) && Size(Plain(n)) == n
  {
    var s := Plain(n);
    assert FindFrom(s, '%', 0).None?;
    assert "" + s[0..] == s;
    assert Size("") == 0;
  }

  /** No raw value of the view is larger than this. */
  ghost predicate Largest(view: View, n: nat) {
    forall name :: view(name).Some? ==> Size(view(name).value) <= n
  }

  function Max(a: nat, b: nat): nat {
    if a < b then b else a
  }

  /** The size is tested before a round's two pushes, so the last round can overrun the limit by two raw values. */
  lemma {:induction false} OutputBound(view: View, s: string, i: nat, depth: nat, out: string, n: nat)
    requires i <= |s| && Largest(view, n) && Size(s) <= n && Interpolate(view, s, i, depth, out).Done?
    ensures Size(Interpolate(view, s, i, depth, out).text) <= Max(Size(out), MAX_OUTPUT + 2 * n)
    decreases MAX_DEPTH + 1 - Min(depth, MAX_DEPTH + 1), |s| - i
  {
    hide Size, OptionXform;
    if i < |s| {
      match FindFrom(s, '%', i)
      case None =>
        SizeAppend(out, s[i..]);
        SizeSlice(s, i, |s|);
        assert s[i..|s|] == s[i..];
      case Some(p) =>
        var lit := out + s[i..p];
        SizeAppend(out, s[i..p]);
        SizeSlice(s, i, p);
        if s[p + 1] == '%' {
          SizeAppend(lit, "%");
          PercentSize();
          OutputBound(view, s, p + 2, depth, lit + "%", n);
        } else {
          var (name, end) := KeyRef(s, p).value;
          var value := view(OptionXform(name)).value;
          if FindFrom(value, '%', 0).Some? {
            OutputBound(view, value, 0, depth + 1, lit, n);
            OutputBound(view, s, end, depth, Interpolate(view, value, 0, depth + 1, lit).text, n);
          } else {
            SizeAppend(lit, value);
            OutputBound(view, s, end, depth, lit + value, n);
          }
        }
    }
  }

  lemma {:induction false} PercentSize()
    ensures Size("%") == 1
  {
    assert "%"[..0] == "";
  }

  /**
    Reading an option succeeds exactly when the substitution exists and no test sees an output over
    the limit, with that substitution as the result, at most the limit and two raw values large; a
    substitution that fits the limit is always returned.
  */
  lemma {:induction false} BeforeGetIsSubstitution(view: View, value: string, n: nat)
    requires Largest(view, n) && Size(value) <= n
    ensures BeforeGet(view, value).Done? <==>
              Subst(view, value, 0, 1).Done? && Peak(view, value, 0, 1, "") <= MAX_OUTPUT
    ensures BeforeGet(view, value).Done? ==>
              BeforeGet(view, value) == Subst(view, value, 0, 1)
              && Size(BeforeGet(view, value).text) <= MAX_OUTPUT + 2 * n
    ensures Subst(view, value, 0, 1).Done? && Size(Subst(view, value, 0, 1).text) <= MAX_OUTPUT ==>
              BeforeGet(view, value) == Subst(view, value, 0, 1)
  {
    hide Interpolate, Subst, Peak;
    var sub := Subst(view, value, 0, 1);
    if BeforeGet(view, value).Done? {
      InterpolateSubstitutes(view, value, 0, 1, "");
      OutputBound(view, value, 0, 1, "", n);
      assert Size("") == 0;
    }
    if sub.Done? {
      Empties(sub.text);
      PeakDecides(view, value, 0, 1, "");
      if Size(sub.text) <= MAX_OUTPUT {
        SmallResultsSucceed(view, value, 0, 1, "");
      }
    }
  }

  /** Reading depends on the view only through its answers. */
  lemma {:induction false} SameAnswers(a: View, b: View, s: string, i: nat, depth: nat, out: string)
    requires i <= |s| && forall name :: a(name) == b(name)
    ensures Interpolate(a, s, i, depth, out) == Interpolate(b, s, i, depth, out)
    decreases MAX_DEPTH + 1 - Min(depth, MAX_DEPTH + 1), |s| - i
  {
    hide Size, OptionXform, FindFrom;
    if depth <= MAX_DEPTH && i < |s| && FindFrom(s, '%', i).Some? {
      var p := FindFrom(s, '%', i).value;
      var lit := out + s[i..p];
      if p + 1 < |s| && s[p + 1] == '%' {
        SameAnswers(a, b, s, p + 2, depth, lit + "%");
      } else if p + 1 < |s| && s[p + 1] == '(' && KeyRef(s, p).Some? {
        var (name, end) := KeyRef(s, p).value;
        var value := a(OptionXform(name));
        if value.Some? {
          var nested := FindFrom(value.value, '%', 0).Some?;
          if nested {
            SameAnswers(a, b, value.value, 0, depth + 1, lit);
          }
          var inner := if nested then Interpolate(a, value.value, 0, depth + 1, lit) else Done(lit + value.value);
          if inner.Done? {
            SameAnswers(a, b, s, end, depth, inner.text);
          }
        }
      }
    }
  }

  // ----- what `set` screens

  /** Every `%%` removed, left to right. */
  function Unescaped(s: string, i: nat): string
    requires i <= |s|
    decreases |s| - i
  {
    if i == |s| then ""
    else if i + 1 < |s| && s[i] == '%' && s[i + 1] == '%' then Unescaped(s, i + 2)
    else [s[i]] + Unescaped(s, i + 1)
  }

  /** Nothing but references follows a `%`. */
  predicate OnlyReferences(s: string, i: nat)
    requires i <= |s|
    decreases |s| - i
  {
    match FindFrom(s, '%', i)
    case None => true
    case Some(p) => p + 1 < |s| && s[p + 1] == '(' && KeyRef(s, p).Some? && OnlyReferences(s, KeyRef(s, p).value.1)
  }

  /** What `set` accepts. */
  predicate Admits(s: string) {
    OnlyReferences(Unescaped(s, 0), 0)
  }

  /** Escapes and references, left to right, and no other use of `%`. */
  predicate WellFormed(s: string, i: nat)
    requires i <= |s|
    decreases |s| - i
  {
    match FindFrom(s, '%', i)
    case None => true
    case Some(p) =>
      p + 1 < |s| &&
      if s[p + 1] == '%' then WellFormed(s, p + 2)
      else s[p + 1] == '(' && KeyRef(s, p).Some? && WellFormed(s, KeyRef(s, p).value.1)
  }

  predicate NoEscapes(s: string) {
    forall i :: 0 <= i < |s| - 1 ==> !(s[i] == '%' && s[i + 1] == '%')
  }

  lemma {:induction false} UnescapedPlain(s: string, i: nat)
    requires i <= |s| && NoEscapes(s)
    ensures Unescaped(s, i) == s[i..]
    decreases |s| - i
  {
    if i < |s| {
      UnescapedPlain(s, i + 1);
      assert s[i..] == [s[i]] + s[i + 1..];
    }
  }

  lemma {:induction false} ReferencesAreWellFormed(s: string, i: nat)
    requires i <= |s| && NoEscapes(s)
    ensures OnlyReferences(s, i) <==> WellFormed(s, i)
    decreases |s| - i
  {
    var f := FindFrom(s, '%', i);
    if f.Some? && f.value + 1 < |s| && s[f.value + 1] == '(' && KeyRef(s, f.value).Some? {
      ReferencesAreWellFormed(s, KeyRef(s, f.value).value.1);
    }
  }

  /** Every option `s` refers to has a value, and one that has references of its own can be read, deep as it is. */
  predicate Resolves(view: View, s: string, i: nat, depth: nat)
    requires i <= |s| && depth <= MAX_DEPTH
    decreases MAX_DEPTH - depth, |s| - i
  {
    match FindFrom(s, '%', i)
    case None => true
    case Some(p) =>
      if p + 1 < |s| && s[p + 1] == '%' then Resolves(view, s, p + 2, depth)
      else
        p + 1 < |s| && s[p + 1] == '(' && KeyRef(s, p).Some? ==>
          var (name, end) := KeyRef(s, p).value;
          && view(OptionXform(name)).Some?
          && Nests(view, view(OptionXform(name)).value, depth)
          && Resolves(view, s, end, depth)
  }

  /** A value met at a reference `depth` levels down. */
  predicate Nests(view: View, value: string, depth: nat)
    requires depth <= MAX_DEPTH
    decreases MAX_DEPTH - depth, 0
  {
    FindFrom(value, '%', 0).Some? ==>
      depth < MAX_DEPTH && WellFormed(value, 0) && Resolves(view, value, 0, depth + 1)
  }

  /** What can be read is what is well formed and whose references resolve. */
  lemma {:induction false} WellFormedIsReadable(view: View, s: string, i: nat, depth: nat)
    requires i <= |s| && depth <= MAX_DEPTH
    ensures Subst(view, s, i, depth).Done? <==> WellFormed(s, i) && Resolves(view, s, i, depth)
    decreases MAX_DEPTH - depth, |s| - i
  {
    hide OptionXform, FindFrom;
    var f := FindFrom(s, '%', i);
    if f.Some? && f.value + 1 < |s| {
      if s[f.value + 1] == '%' {
        WellFormedIsReadable(view, s, f.value + 2, depth);
      } else if s[f.value + 1] == '(' && KeyRef(s, f.value).Some? {
        var (name, end) := KeyRef(s, f.value).value;
        var value := view(OptionXform(name));
        if value.Some? && FindFrom(value.value, '%', 0).Some? && depth < MAX_DEPTH {
          WellFormedIsReadable(view, value.value, 0, depth + 1);
        }
        WellFormedIsReadable(view, s, end, depth);
      }
    }
  }

  lemma {:induction false} ReadsIff(view: View, s: string)
    ensures Subst(view, s, 0, 1).Done? <==> WellFormed(s, 0) && Resolves(view, s, 0, 1)
    ensures BeforeGet(view, s).Done? <==>
              WellFormed(s, 0) && Resolves(view, s, 0, 1) && Peak(view, s, 0, 1, "") <= MAX_OUTPUT
  {
    hide Subst, Interpolate, Peak, WellFormed, Resolves;
    WellFormedIsReadable(view, s, 0, 1);
    if Subst(view, s, 0, 1).Done? {
      PeakDecides(view, s, 0, 1, "");
    }
    if BeforeGet(view, s).Done? {
      InterpolateSubstitutes(view, s, 0, 1, "");
    }
  }

  /** Without an escape, what `set` accepts is exactly what can be read once its references resolve. */
  lemma {:induction false} WithoutEscapesTheyAgree(view: View, s: string)
    requires NoEscapes(s)
    ensures Subst(view, s, 0, 1).Done? <==> Admits(s) && Resolves(view, s, 0, 1)
    ensures BeforeGet(view, s).Done? <==>
              Admits(s) && Resolves(view, s, 0, 1) && Peak(view, s, 0, 1, "") <= MAX_OUTPUT
  {
    hide Peak, Subst, Interpolate, Resolves, WellFormed;
    UnescapedPlain(s, 0);
    assert s[0..] == s;
    ReferencesAreWellFormed(s, 0);
    ReadsIff(view, s);
  }

  // With escapes the two part ways in two places, and only there: an escape right behind a reference's closing
  // parenthesis, and a reference whose name is nothing but escapes.

  /** The parenthesis that closes the reference at `p` has an escape right behind it. */
  predicate Bridged(s: string, p: nat)
    requires p < |s|
  {
    p + 2 <= |s| &&
    match FindFrom(s, ')', p + 2)
    case None => false
    case Some(c) => c + 2 < |s| && s[c + 1] == '%' && s[c + 2] == '%'
  }

  predicate Unbridged(s: string, i: nat)
    requires i <= |s|
    decreases |s| - i
  {
    match FindFrom(s, '%', i)
    case None => true
    case Some(p) =>
      if p + 1 < |s| && s[p + 1] == '%' then Unbridged(s, p + 2)
      else !Bridged(s, p) && (p + 2 <= |s| && KeyRef(s, p).Some? ==> Unbridged(s, KeyRef(s, p).value.1))
  }

  /** No reference has a name that vanishes with its escapes. */
  predicate NamesSurvive(s: string, i: nat)
    requires i <= |s|
    decreases |s| - i
  {
    match FindFrom(s, '%', i)
    case None => true
    case Some(p) =>
      if p + 1 < |s| && s[p + 1] == '%' then NamesSurvive(s, p + 2)
      else
        p + 2 <= |s| && KeyRef(s, p).Some? ==>
          var end := KeyRef(s, p).value.1;
          Unescaped(s[..end - 2], p + 2) != "" && NamesSurvive(s, end)
  }

  lemma {:induction false} FindShift(a: string, x: string, c: char, i: nat)
    requires i <= |x|
    ensures FindFrom(a + x, c, |a| + i) == match FindFrom(x, c, i) case None => None case Some(k) => Some(|a| + k)
    decreases |x| - i
  {
    if i < |x| {
      assert (a + x)[|a| + i] == x[i];
      FindShift(a, x, c, i + 1);
    }
  }

  lemma {:induction false} RefShift(a: string, x: string, i: nat)
    requires i + 2 <= |x|
    ensures KeyRef(a + x, |a| + i) ==
            match KeyRef(x, i) case None => None case Some(r) => Some((r.0, |a| + r.1))
  {
    FindShift(a, x, ')', i + 2);
    var f := FindFrom(x, ')', i + 2);
    if f.Some? {
      assert (a + x)[|a| + i + 2..|a| + f.value] == x[i + 2..f.value];
      assert f.value + 1 < |x| ==> (a + x)[|a| + f.value + 1] == x[f.value + 1];
    }
  }

  lemma {:induction false} ReferencesShift(a: string, x: string, i: nat)
    requires i <= |x|
    ensures OnlyReferences(a + x, |a| + i) <==> OnlyReferences(x, i)
    decreases |x| - i
  {
    hide FindFrom, KeyRef;
    FindShift(a, x, '%', i);
    var f := FindFrom(x, '%', i);
    if f.Some? && f.value + 1 < |x| {
      assert (a + x)[|a| + f.value + 1] == x[f.value + 1];
      RefShift(a, x, f.value);
      if KeyRef(x, f.value).Some? {
        ReferencesShift(a, x, KeyRef(x, f.value).value.1);
      }
    }
  }

  /** Unescaping up to a character that is not `%` does not reach past it. */
  lemma {:induction false} UnescapedTo(s: string, i: nat, c: nat) returns (x: string)
    requires i <= c < |s| && s[c] != '%'
    ensures x == Unescaped(s[..c], i) && Unescaped(s, i) == x + Unescaped(s, c)
    ensures x != "" ==> i < c
    ensures (forall k :: i <= k < c ==> s[k] != ')') ==> forall k :: 0 <= k < |x| ==> x[k] != ')'
    decreases c - i
  {
    if i == c {
      x := "";
    } else if s[i] == '%' && s[i + 1] == '%' {
      x := UnescapedTo(s, i + 2, c);
    } else {
      var y := UnescapedTo(s, i + 1, c);
      x := [s[i]] + y;
      AppendAppend([s[i]], y, Unescaped(s, c));
    }
  }

  lemma {:induction false} UnbridgedIsWellFormed(s: string, i: nat)
    requires i <= |s| && OnlyReferences(Unescaped(s, i), 0)
    ensures WellFormed(s, i) <==> Unbridged(s, i)
    decreases |s| - i
  {
    hide OnlyReferences, Unescaped, FindFrom, KeyRef, Bridged;
    var f := FindFrom(s, '%', i);
    if f.Some? {
      var p := f.value;
      var lit, u := LiteralThen(s, i, p);
      assert '%' !in lit;
      SameFind(lit, u);
      if p + 1 < |s| && s[p + 1] == '%' {
        UnescapedPair(s, p);
        UnbridgedIsWellFormed(s, p + 2);
      } else if Bridged(s, p) {
        BridgeIsUnreadable(s, p);
      } else {
        var end := ReferenceHere(s, p);
        UnbridgedIsWellFormed(s, end);
      }
    }
  }

  lemma {:induction false} BridgeIsUnreadable(s: string, p: nat)
    requires p < |s| && Bridged(s, p)
    ensures p + 2 <= |s| && KeyRef(s, p).None?
  {
  }

  lemma {:induction false} UnescapedPair(s: string, p: nat)
    requires p + 1 < |s| && s[p] == '%' && s[p + 1] == '%'
    ensures Unescaped(s, p) == Unescaped(s, p + 2)
  {
  }

  lemma {:induction false} LiteralThen(s: string, i: nat, p: nat) returns (lit: string, u: string)
    requires i <= p < |s| && s[p] == '%' && forall k :: i <= k < p ==> s[k] != '%'
    ensures lit == s[i..p] && u == Unescaped(s, p) && Unescaped(s, i) == lit + u
    decreases p - i
  {
    u := Unescaped(s, p);
    lit := s[i..p];
    if i < p {
      var l, v := LiteralThen(s, i + 1, p);
      assert lit == [s[i]] + l;
      AppendAppend([s[i]], l, u);
    }
  }

  /** A literal in front does not change what follows the first `%`. */
  lemma {:induction false} SameFind(lit: string, u: string)
    requires '%' !in lit
    ensures OnlyReferences(lit + u, 0) <==> OnlyReferences(u, 0)
  {
    FindPast(lit, u, 0);
    FindShift(lit, u, '%', 0);
    ReferencesShift(lit, u, 0);
  }

  lemma {:induction false} FindPast(lit: string, u: string, i: nat)
    requires '%' !in lit && i <= |lit|
    ensures FindFrom(lit + u, '%', i) == FindFrom(lit + u, '%', |lit|)
    decreases |lit| - i
  {
    if i < |lit| {
      assert (lit + u)[i] == lit[i];
      assert lit[i] in lit;
      FindPast(lit, u, i + 1);
    }
  }

  /** A reference in the unescaped text is a reference in the text. */
  lemma {:induction false} ReferenceHere(s: string, p: nat) returns (end: nat)
    requires p < |s| && s[p] == '%' && !(p + 1 < |s| && s[p + 1] == '%') && !Bridged(s, p)
    requires OnlyReferences(Unescaped(s, p), 0)
    ensures p + 1 < |s| && s[p + 1] == '(' && KeyRef(s, p).Some? && end == KeyRef(s, p).value.1
    ensures OnlyReferences(Unescaped(s, end), 0)
  {
    hide Unescaped, OnlyReferences, Bridged, KeyRef, FindFrom;
    ReferenceOpens(s, p);
    var v := Unescaped(s, p + 2);
    FindShift("%(", v, ')', 0);
    var c := ParenAhead(s, p + 2);
    var x := UnescapedTo(s, p + 2, c);
    end := c + 2;
    EndsHere(s, p, c, x);
  }

  lemma {:induction false} ReferenceOpens(s: string, p: nat)
    requires p < |s| && s[p] == '%' && !(p + 1 < |s| && s[p + 1] == '%')
    requires OnlyReferences(Unescaped(s, p), 0)
    ensures p + 1 < |s| && s[p + 1] == '(' && Unescaped(s, p) == "%(" + Unescaped(s, p + 2)
    ensures FindFrom("%(" + Unescaped(s, p + 2), ')', 2).Some?
  {
    hide Unescaped;
    Unpaired(s, p);
    var rest := Unescaped(s, p + 1);
    StartsReference(rest);
    assert p + 1 < |s| by { UnescapedEnd(s); }
    Unpaired(s, p + 1);
  }

  lemma {:induction false} UnescapedEnd(s: string)
    ensures Unescaped(s, |s|) == ""
  {
  }

  lemma {:induction false} StartsReference(rest: string)
    requires OnlyReferences("%" + rest, 0)
    ensures rest != "" && rest[0] == '(' && FindFrom("%" + rest, ')', 2).Some?
  {
    var u := "%" + rest;
    assert u[0] == '%' && FindFrom(u, '%', 0) == Some(0);
  }

  lemma {:induction false} ParenAhead(s: string, i: nat) returns (c: nat)
    requires i <= |s| && FindFrom(Unescaped(s, i), ')', 0).Some?
    ensures i <= c < |s| && s[c] == ')' && forall k :: i <= k < c ==> s[k] != ')'
    decreases |s| - i
  {
    if i + 1 < |s| && s[i] == '%' && s[i + 1] == '%' {
      c := ParenAhead(s, i + 2);
    } else if s[i] == ')' {
      c := i;
    } else {
      FindShift([s[i]], Unescaped(s, i + 1), ')', 0);
      c := ParenAhead(s, i + 1);
    }
  }

  lemma {:induction false} EndsHere(s: string, p: nat, c: nat, x: string)
    requires p + 2 <= c < |s| && s[c] == ')' && (forall k :: p + 2 <= k < c ==> s[k] != ')') && !Bridged(s, p)
    requires Unescaped(s, p + 2) == x + Unescaped(s, c)
             && (forall k :: 0 <= k < |x| ==> x[k] != ')') && (x != "" ==> p + 2 < c)
    requires OnlyReferences("%(" + Unescaped(s, p + 2), 0)
    ensures KeyRef(s, p).Some? && KeyRef(s, p).value.1 == c + 2 && OnlyReferences(Unescaped(s, c + 2), 0)
  {
    hide Unescaped, OnlyReferences, FindFrom;
    ParenUnescaped(s, c);
    RefEnds(x, Unescaped(s, c + 1));
    assert FindFrom(s, ')', p + 2) == Some(c);
    AfterParen(s, c);
  }

  lemma {:induction false} ParenUnescaped(s: string, c: nat)
    requires c < |s| && s[c] == ')'
    ensures Unescaped(s, c) == ")" + Unescaped(s, c + 1)
  {
  }

  lemma {:induction false} AfterParen(s: string, c: nat)
    requires c < |s| && !(c + 2 < |s| && s[c + 1] == '%' && s[c + 2] == '%') && Unescaped(s, c + 1) != ""
             && Unescaped(s, c + 1)[0] == 's'
    ensures c + 1 < |s| && s[c + 1] == 's' && Unescaped(s, c + 1)[1..] == Unescaped(s, c + 2)
  {
    assert c + 1 < |s|;
    assert Unescaped(s, c + 1) == [s[c + 1]] + Unescaped(s, c + 2);
  }

  /** The reference `%(x)` with `after` behind its parenthesis. */
  lemma {:induction false} RefEnds(x: string, after: string)
    requires ')' !in x
    ensures OnlyReferences("%(" + (x + (")" + after)), 0) <==>
            x != "" && after != "" && after[0] == 's' && OnlyReferences(after[1..], 0)
  {
    var u := "%(" + (x + (")" + after));
    var close := 2 + |x|;
    assert u[0] == '%' && u[1] == '(';
    assert FindFrom(u, '%', 0) == Some(0);
    CloseAt(x, after);
    assert close + 1 < |u| ==> u[close + 1] == after[0];
    if KeyRef(u, 0).None? {
      return;
    }
    assert KeyRef(u, 0).value.1 == close + 2;
    var pre := "%(" + x + ")s";
    assert u == pre + after[1..];
    hide KeyRef, FindFrom;
    ReferencesShift(pre, after[1..], 0);
  }

  lemma {:induction false} CloseAt(x: string, after: string)
    requires ')' !in x
    ensures var u := "%(" + (x + (")" + after)); FindFrom(u, ')', 2) == Some(2 + |x|)
  {
    var u := "%(" + (x + (")" + after));
    FindShift("%(", x + (")" + after), ')', 0);
    NotIn(x, ")" + after, 0);
    assert (x + (")" + after))[|x|] == ')';
  }

  lemma {:induction false} NotIn(x: string, y: string, i: nat)
    requires ')' !in x && i <= |x|
    ensures FindFrom(x + y, ')', i) == FindFrom(x + y, ')', |x|)
    decreases |x| - i
  {
    if i < |x| {
      assert (x + y)[i] == x[i];
      assert x[i] in x;
      NotIn(x, y, i + 1);
    }
  }

  /** What `set` accepts can be read, exactly when no reference is bridged and all of them resolve. */
  lemma {:induction false} AdmittedIsReadable(view: View, s: string)
    requires Admits(s)
    ensures Subst(view, s, 0, 1).Done? <==> Unbridged(s, 0) && Resolves(view, s, 0, 1)
    ensures BeforeGet(view, s).Done? <==>
              Unbridged(s, 0) && Resolves(view, s, 0, 1) && Peak(view, s, 0, 1, "") <= MAX_OUTPUT
  {
    hide Peak, Subst, Interpolate, Resolves, WellFormed, Unbridged;
    UnbridgedIsWellFormed(s, 0);
    ReadsIff(view, s);
  }

  lemma {:induction false} LiteralOnly(s: string, i: nat)
    requires i <= |s| && forall k :: i <= k < |s| ==> s[k] != '%'
    ensures Unescaped(s, i) == s[i..] && OnlyReferences(Unescaped(s, i), 0)
    decreases |s| - i
  {
    if i < |s| {
      LiteralOnly(s, i + 1);
      assert s[i..] == [s[i]] + s[i + 1..];
    }
    assert forall k :: 0 <= k < |s[i..]| ==> s[i..][k] == s[i + k];
    assert FindFrom(s[i..], '%', 0).None?;
  }

  lemma {:induction false} SurvivorsAreAdmitted(s: string, i: nat)
    requires i <= |s| && WellFormed(s, i)
    ensures OnlyReferences(Unescaped(s, i), 0) <==> NamesSurvive(s, i)
    decreases |s| - i
  {
    hide OnlyReferences, Unescaped, FindFrom, KeyRef;
    match FindFrom(s, '%', i) {
      case None =>
        LiteralOnly(s, i);
      case Some(p) =>
        var lit, u := LiteralThen(s, i, p);
        assert '%' !in lit;
        SameFind(lit, u);
        if s[p + 1] == '%' {
          UnescapedPair(s, p);
          SurvivorsAreAdmitted(s, p + 2);
        } else {
          NameSurvives(s, p);
          SurvivorsAreAdmitted(s, KeyRef(s, p).value.1);
        }
    }
  }

  lemma {:induction false} NameSurvives(s: string, p: nat)
    requires p + 2 <= |s| && s[p] == '%' && s[p + 1] == '(' && KeyRef(s, p).Some?
    ensures var end := KeyRef(s, p).value.1;
            OnlyReferences(Unescaped(s, p), 0) <==>
            Unescaped(s[..end - 2], p + 2) != "" && OnlyReferences(Unescaped(s, end), 0)
  {
    hide OnlyReferences, Unescaped;
    var c := KeyRef(s, p).value.1 - 2;
    assert s[c] == ')' && s[c + 1] == 's' && forall k :: p + 2 <= k < c ==> s[k] != ')';
    hide FindFrom, KeyRef;
    var x := UnescapedTo(s, p + 2, c);
    ParenUnescaped(s, c);
    Unpaired(s, c + 1);
    Unpaired(s, p);
    Unpaired(s, p + 1);
    assert Unescaped(s, p) == "%(" + (x + (")" + Unescaped(s, c + 1)));
    RefEnds(x, Unescaped(s, c + 1));
  }

  lemma {:induction false} Unpaired(s: string, i: nat)
    requires i < |s| && !(i + 1 < |s| && s[i] == '%' && s[i + 1] == '%')
    ensures Unescaped(s, i) == [s[i]] + Unescaped(s, i + 1) && Unescaped(s, i)[1..] == Unescaped(s, i + 1)
  {
  }

  /** What was read `set` accepts, exactly when no reference loses its name. */
  lemma {:induction false} ReadableIsAdmitted(view: View, s: string)
    requires BeforeGet(view, s).Done?
    ensures Admits(s) <==> NamesSurvive(s, 0)
  {
    hide Interpolate, WellFormed, NamesSurvive, OnlyReferences, Unescaped;
    ReadableIsWellFormed(view, s, 0, 1, "");
    SurvivorsAreAdmitted(s, 0);
  }

  /** Whatever the other values are, only what is well formed is read. */
  lemma {:induction false} ReadableIsWellFormed(view: View, s: string, i: nat, depth: nat, out: string)
    requires i <= |s| && Interpolate(view, s, i, depth, out).Done?
    ensures WellFormed(s, i)
    decreases |s| - i
  {
    hide Size, OptionXform;
    if i < |s| {
      match FindFrom(s, '%', i)
      case None =>
      case Some(p) =>
        var lit := out + s[i..p];
        if s[p + 1] == '%' {
          ReadableIsWellFormed(view, s, p + 2, depth, lit + "%");
        } else {
          var (name, end) := KeyRef(s, p).value;
          var value := view(OptionXform(name)).value;
          var more := if FindFrom(value, '%', 0).Some? then Interpolate(view, value, 0, depth + 1, lit).text
                      else lit + value;
          ReadableIsWellFormed(view, s, end, depth, more);
        }
    }
  }

  /** With an escape they part ways: one is accepted and unreadable, the other readable and refused. */
  lemma {:induction false} EscapesPartTheTwo(view: View, value: string)
    requires view("%%") == Some(value) && '%' !in value
    ensures Admits("%(a)%%s") && BeforeGet(view, "%(a)%%s") == Fail(BadReference)
    ensures !Admits("%(%%)s") && BeforeGet(view, "%(%%)s") == Done(value)
  {
    BridgedExample(view);
    EmptiedExample(view, value);
  }

  lemma {:induction false} BridgedExample(view: View)
    ensures Admits("%(a)%%s") && BeforeGet(view, "%(a)%%s") == Fail(BadReference)
  {
    var s := "%(a)%%s";
    assert Size("") == 0;
    assert FindFrom(s, '%', 0) == Some(0) && FindFrom(s, ')', 2) == Some(3);
    assert KeyRef(s, 0).None?;
    assert Unescaped(s, 7) == "" && Unescaped(s, 6) == "s" && Unescaped(s, 4) == "s";
    assert Unescaped(s, 3) == ")s" && Unescaped(s, 2) == "a)s" && Unescaped(s, 1) == "(a)s" && Unescaped(s, 0) ==
           "%(a)s";
    var t := "%(a)s";
    assert FindFrom(t, '%', 0) == Some(0) && FindFrom(t, ')', 2) == Some(3);
    assert KeyRef(t, 0) == Some((t[2..3], 5));
    assert FindFrom(t, '%', 5).None?;
  }

  lemma {:induction false} EmptiedExample(view: View, value: string)
    requires view("%%") == Some(value) && '%' !in value
    ensures !Admits("%(%%)s") && BeforeGet(view, "%(%%)s") == Done(value)
  {
    var s := "%(%%)s";
    assert FindFrom(s, '%', 0) == Some(0) && FindFrom(s, ')', 2) == Some(4);
    assert s[2..4] == "%%" && KeyRef(s, 0) == Some(("%%", 6));
    EmptiedReads(view, value);
    assert Unescaped(s, 6) == "" && Unescaped(s, 5) == "s" && Unescaped(s, 4) == ")s" && Unescaped(s, 2) == ")s";
    assert Unescaped(s, 1) == "()s" && Unescaped(s, 0) == "%()s";
    var t := "%()s";
    assert FindFrom(t, '%', 0) == Some(0) && FindFrom(t, ')', 2) == Some(2);
  }

  lemma {:induction false} EmptiedReads(view: View, value: string)
    requires view("%%") == Some(value) && '%' !in value
    requires FindFrom("%(%%)s", '%', 0) == Some(0) && KeyRef("%(%%)s", 0) == Some(("%%", 6))
    ensures BeforeGet(view, "%(%%)s") == Done(value)
  {
    var s := "%(%%)s";
    hide OptionXform, KeyRef;
    PercentsStay();
    assert Size("") == 0 && FindFrom(value, '%', 0).None?;
    assert "" + s[0..0] + value == value;
    hide Size, FindFrom;
    EndOfText(view, s, 1, value);
  }

  lemma {:induction false} PercentsStay()
    ensures OptionXform("%%") == "%%"
  {
  }

  lemma {:induction false} EndOfText(view: View, s: string, depth: nat, out: string)
    requires depth <= MAX_DEPTH
    ensures Interpolate(view, s, |s|, depth, out) == Done(out)
  {
  }
}
