/** Reading back what was written. */
module IniRoundTrip {
  import opened Bytes
  import opened IniText
  import opened IniModel
  import opened IniRead

  // ----- what may be stored

  /** A key a line can start with and be read back as. */
  predicate GoodKey(key: string) {
    && key != "" && Stripped(key) && NoBreak(key) && !IsCommentMark(key[0]) && OptionXform(key) == key
    && forall i :: 0 <= i < |key| ==> !IsDelimiter(key[i])
  }

  predicate NoBracket(s: string, from: nat) {
    forall i :: from <= i < |s| ==> s[i] != ']'
  }

  /** An option whose first written line does not read as a section header. */
  predicate GoodOption(key: string, value: Value) {
    && GoodKey(key)
    && (key[0] == '[' ==> NoBracket(key, 2) && (value.Some? ==> NoBracket(SplitLines(value.value)[0], 0)))
  }

  predicate GoodName(name: string) {
    name != "" && name != DEFAULT && NoBreak(name)
  }

  predicate GoodOpts(opts: Opts) {
    Distinct(opts) && forall i :: 0 <= i < |opts| ==> GoodOption(opts[i].0, opts[i].1)
  }

  predicate GoodSections(sections: Assoc<Opts>) {
    Distinct(sections) && forall i :: 0 <= i < |sections| ==> GoodName(sections[i].0) && GoodOpts(sections[i].1)
  }

  predicate GoodConfig(cfg: Config) {
    GoodOpts(cfg.defaults) && GoodSections(cfg.sections)
  }

  // ----- single lines

  lemma {:induction false} HeaderLine(r: Reading, name: string, noValue: bool)
    requires name != "" && NoBreak(name)
    ensures ReadLine(r, "[" + name + "]\n", noValue) == OpenSection(r, name)
  {
    hide OpenSection, Strip;
    var m := "[" + name + "]";
    assert m[0] == '[' && m[|m| - 1] == ']';
    assert "[" + name + "]\n" == "" + m + "\n";
    StripSurrounded("", m, "\n");
    assert FindLast(m, ']', |m|) == Some(|m| - 1);
    assert m[1..|m| - 1] == name;
  }

  lemma {:induction false} BlankLine(r: Reading, noValue: bool)
    ensures ReadLine(r, "\n", noValue) == Ok(match PushLine(r, "") case Some(more) => more case None => r)
  {
    hide PushLine, Strip;
    assert "\n" == "" + "" + "\n";
    StripSurrounded("", "", "\n");
  }

  /** What a value's later line is read as: nothing, when it looks like a comment. */
  function KeepLine(b: string): seq<string> {
    var clean := Strip(b);
    if clean == "" then [""] else if IsCommentMark(clean[0]) then [] else [clean]
  }

  lemma {:induction false} ContinuationLine(r: Reading, b: string, noValue: bool)
    requires r.cur != NoSection && r.opt.Some? && r.indent == 0
    ensures var line := "\t" + b + "\n";
            && (KeepLine(b) == [] ==> ReadLine(r, line, noValue) == Ok(r))
            && (KeepLine(b) != [] && PushLine(r, KeepLine(b)[0]).Some? ==>
                  ReadLine(r, line, noValue) == Ok(PushLine(r, KeepLine(b)[0]).value))
  {
    hide PushLine, Strip, IsSpace, SectionHeader, ReadOption, OpenSection;
    var line := "\t" + b + "\n";
    Blanks();
    StripIgnores("\t", b, "\n");
    assert line[0] == '\t';
    Tabbed(line);
  }

  lemma {:induction false} Blanks()
    ensures AllSpace("") && AllSpace(" ") && AllSpace("\t") && AllSpace("\n")
  {
  }

  lemma {:induction false} Tabbed(line: string)
    requires line != "" && line[0] == '\t'
    ensures SkipSpaces(line, 0) > 0
  {
  }

  /** A stripped option line, read. */
  ghost predicate ReadsAs(clean: string, key: string, value: Value, noValue: bool) {
    && clean != "" && !IsCommentMark(clean[0]) && SectionHeader(clean).None?
    && ParseOption(clean, noValue) == Some((key, value))
  }

  lemma {:induction false} OptionClean(key: string, v0: string, spaced: bool, noValue: bool)
    requires GoodKey(key) && (key[0] == '[' ==> NoBracket(key, 2) && NoBracket(v0, 0))
    ensures var line := key + Delim(spaced) + v0 + "\n";
            && ReadsAs(Strip(line), key, Some(Strip(v0)), noValue)
            && SkipSpaces(line, 0) == 0
  {
    hide Strip, SkipSpaces, NoBracket, ReadsAs, GoodKey;
    var pad := if spaced then " " else "";
    assert key + Delim(spaced) + v0 + "\n" == key + (pad + "=" + (pad + v0 + "\n"));
    PaddedClean(key, pad, v0, noValue);
  }

  lemma {:induction false} PaddedClean(key: string, pad: string, v0: string, noValue: bool)
    requires GoodKey(key) && (key[0] == '[' ==> NoBracket(key, 2) && NoBracket(v0, 0)) && (pad == "" || pad == " ")
    ensures var line := key + (pad + "=" + (pad + v0 + "\n"));
            && ReadsAs(Strip(line), key, Some(Strip(v0)), noValue)
            && SkipSpaces(line, 0) == 0
  {
    hide Strip, Rstrip, IsSpace, SectionHeader, NoBracket, SkipSpaces, FirstDelimiter, AllSpace, OptionXform;
    var tail := pad + v0 + "\n";
    var rest := pad + "=" + tail;
    Blanks();
    var kept, b := StripEnd(key, rest);
    SplitsAt(key, pad, tail, kept, b);
    KeyRead(key, pad);
    StripIgnores("", (key + kept)[|key| + |pad| + 1..], b);
    StripIgnores(pad, v0, "\n");
    if key[0] == '[' {
      NoBracketIn(pad, v0);
    }
    NotHeader(key, rest, kept);
    FirstIsKey(key, rest);
  }

  lemma {:induction false} NoBracketIn(pad: string, v0: string)
    requires (pad == "" || pad == " ") && NoBracket(v0, 0)
    ensures NoBracket(pad + "=" + (pad + v0 + "\n"), 0)
  {
    var tail := pad + v0 + "\n";
    assert NoBracket(tail, 0);
  }

  lemma {:induction false} FirstIsKey(key: string, rest: string)
    requires key != "" && Stripped(key)
    ensures SkipSpaces(key + rest, 0) == 0
  {
    assert (key + rest)[0] == key[0];
  }

  /** The padded delimiter survives the strip, and is the first one. */
  lemma {:induction false} SplitsAt(key: string, pad: string, tail: string, kept: string, b: string)
    requires GoodKey(key) && (pad == "" || pad == " ") && pad + "=" + tail == kept + b && AllSpace(b)
    ensures |pad| < |kept|
    ensures var clean, p := key + kept, |key| + |pad|;
            && FirstDelimiter(clean, 0) == Some(p) && clean[..p] == key + pad && "" + clean[p + 1..] + b == tail
  {
    var rest := pad + "=" + tail;
    assert rest[|pad|] == '=' && rest == kept + b;
    assert forall k :: |kept| <= k < |rest| ==> IsSpace(rest[k]);
    assert |pad| < |kept|;
    var clean, p := key + kept, |key| + |pad|;
    assert kept[|pad|] == rest[|pad|];
    assert clean[p] == '=';
    assert pad == " " ==> kept[0] == rest[0] == ' ';
    assert forall k :: 0 <= k < p ==> clean[k] == if k < |key| then key[k] else ' ';
    DropAppend(kept, b, |pad| + 1);
    Halves(pad + "=", tail);
    assert clean[p + 1..] == kept[|pad| + 1..];
  }

  lemma {:induction false} KeyRead(key: string, pad: string)
    requires key != "" && Stripped(key) && (pad == "" || pad == " ")
    ensures Rstrip(key + pad) == key
  {
    DropsAll(key, pad, 0);
    Halves(key, pad);
  }

  lemma {:induction false} NotHeader(key: string, rest: string, kept: string)
    requires key != "" && kept <= rest && (key[0] == '[' ==> NoBracket(key, 2) && NoBracket(rest, 0))
    ensures SectionHeader(key + kept).None?
  {
    var clean := key + kept;
    assert clean[0] == key[0];
    if key[0] == '[' {
      assert forall i :: 2 <= i < |clean| ==> clean[i] == if i < |key| then key[i] else rest[i - |key|];
    }
  }

  lemma {:induction false} BareClean(key: string)
    requires GoodKey(key) && (key[0] == '[' ==> NoBracket(key, 2))
    ensures ReadsAs(Strip(key + "\n"), key, None, true) && SkipSpaces(key + "\n", 0) == 0
  {
    hide Strip, Rstrip, IsSpace;
    Blanks();
    Empties(key);
    StripSurrounded("", key, "\n");
    NotHeader(key, "", "");
    StripOfStripped(key);
    assert FirstDelimiter(key, 0).None?;
    FirstIsKey(key, "\n");
  }

  // ----- what a written value is read as

  function Kept(v: string): (ls: seq<string>)
    ensures ls != []
    decreases |v|
  {
    match FindLast(v, '\n', |v|)
    case None => [Strip(v)]
    case Some(i) => Kept(v[..i]) + KeepLine(v[i + 1..])
  }

  function AccRead(value: Value, noValue: bool): Acc {
    match value
    case Some(v) => Some(Kept(v))
    case None => if noValue then None else Some(["None"])
  }

  /** The value a written value reads back as. */
  function Normal(value: Value, noValue: bool): Value {
    Join(AccRead(value, noValue))
  }

  lemma {:induction false} IndentedPlain(v: string)
    requires NoBreak(v)
    ensures Indented(v) == v
    decreases |v|
  {
    if v != "" {
      IndentedPlain(v[..|v| - 1]);
    }
  }

  lemma {:induction false} IndentedSnoc(a: string, b: string)
    requires NoBreak(b)
    ensures Indented(a + "\n" + b) == Indented(a) + "\n\t" + b
    decreases |b|
  {
    var t := a + "\n" + b;
    if b == "" {
      assert t[..|t| - 1] == a;
    } else {
      var c := b[..|b| - 1];
      assert t[..|t| - 1] == a + "\n" + c;
      IndentedSnoc(a, c);
      assert t[|t| - 1] == b[|b| - 1];
      assert b == c + [b[|b| - 1]];
    }
  }

  // ----- documents, text by text

  /** `s` is a document of whole lines, and reading it from nothing leads to `r`. */
  ghost predicate Reached(s: string, r: Reading, noValue: bool) {
    (s == "" || s[|s| - 1] == '\n') && ReadLines(NOTHING_READ, Lines(s), noValue) == Ok(r)
  }

  predicate IsLine(line: string) {
    line != "" && line[|line| - 1] == '\n' && forall i :: 0 <= i < |line| - 1 ==> line[i] != '\n'
  }

  lemma {:induction false} Next(s: string, r: Reading, line: string, noValue: bool)
    requires Reached(s, r, noValue) && IsLine(line) && ReadLine(r, line, noValue).Ok?
    ensures Reached(s + line, ReadLine(r, line, noValue).value, noValue)
  {
    hide ReadLine, Lines, ReadLines;
    LinesSnoc(s, line);
    ReadsNext(Lines(s), line, noValue);
    assert (s + line)[|s + line| - 1] == line[|line| - 1];
  }

  lemma {:induction false} ReadsNext(ls: seq<string>, line: string, noValue: bool)
    requires ReadLines(NOTHING_READ, ls, noValue).Ok?
    ensures ReadLines(NOTHING_READ, ls + [line], noValue) ==
            ReadLine(ReadLines(NOTHING_READ, ls, noValue).value, line, noValue)
  {
    hide ReadLine;
    var all := ls + [line];
    assert all[..|all| - 1] == ls;
  }

  /** The reading with these options in the current section, standing at that key. */
  function Standing(r: Reading, opts: Assoc<Acc>, key: Option<string>): Reading {
    WithOpts(r, opts).(opt := key, indent := 0)
  }

  lemma {:induction false} StandingAt(r: Reading, opts: Assoc<Acc>, key: Option<string>, more: Assoc<Acc>,
                                      next: Option<string>)
    requires CurOpts(r).Some?
    ensures CurOpts(Standing(r, opts, key)) == Some(opts)
    ensures Standing(Standing(r, opts, key), more, next) == Standing(r, more, next)
  {
  }

  lemma {:induction false} PushesLast(r: Reading, opts: Assoc<Acc>, key: string, lines: seq<string>, line: string)
    requires CurOpts(r).Some? && forall i :: 0 <= i < |opts| ==> opts[i].0 != key
    ensures PushLine(Standing(r, opts + [(key, Some(lines))], Some(key)), line) ==
            Some(Standing(r, opts + [(key, Some(lines + [line]))], Some(key)))
  {
    var all := opts + [(key, Some(lines))];
    StandingAt(r, all, Some(key), all, Some(key));
    assert Find(all, key, 0) == Some(|opts|) by {
      assert all[|opts|].0 == key;
      assert forall i :: 0 <= i < |opts| ==> all[i].0 != key;
    }
    var more: Acc := Some(lines + [line]);
    assert all[|opts|] == (key, Some(lines));
    assert Get(all, key) == Some(Some(lines));
    assert Put(all, key, more) == opts + [(key, more)];
    StandingAt(r, all, Some(key), opts + [(key, more)], Some(key));
    WithOptsAgain(Standing(r, all, Some(key)), opts + [(key, more)]);
  }

  lemma {:induction false} WithOptsAgain(r: Reading, opts: Assoc<Acc>)
    requires r.indent == 0
    ensures WithOpts(r, opts) == Standing(r, opts, r.opt)
  {
  }

  lemma {:induction false} FirstLineRead(s: string, r: Reading, opts: Assoc<Acc>, key: string, v0: string, spaced: bool,
                                         noValue: bool)
    requires Reached(s, r, noValue) && CurOpts(r) == Some(opts) && NoBreak(v0)
    requires GoodKey(key) && (key[0] == '[' ==> NoBracket(key, 2) && NoBracket(v0, 0))
    requires forall i :: 0 <= i < |opts| ==> opts[i].0 != key
    ensures Reached(s + (key + Delim(spaced) + v0 + "\n"), Standing(r, opts + [(key, Some([Strip(v0)]))], Some(key)),
                    noValue)
  {
    hide Strip, SkipSpaces, SectionHeader, ParseOption, Reached;
    var line := key + Delim(spaced) + v0 + "\n";
    OptionClean(key, v0, spaced, noValue);
    assert IsLine(line);
    NewOption(r, opts, Strip(line), key, Some(Strip(v0)), noValue);
    assert ReadLine(r, line, noValue) == ReadOption(r.(indent := 0), Strip(line), noValue);
    assert AccOf(Some(Strip(v0))) == Some([Strip(v0)]);
    Next(s, r, line, noValue);
    assert Reached(s + line, Standing(r, opts + [(key, AccOf(Some(Strip(v0))))], Some(key)), noValue);
  }

  lemma {:induction false} NewOption(r: Reading, opts: Assoc<Acc>, clean: string, key: string, value: Value,
                                     noValue: bool)
    requires CurOpts(r) == Some(opts) && GoodKey(key) && ReadsAs(clean, key, value, noValue)
    requires forall i :: 0 <= i < |opts| ==> opts[i].0 != key
    ensures CurOpts(r.(indent := 0)).Some?
    ensures ReadOption(r.(indent := 0), clean, noValue) == Ok(Standing(r, opts + [(key, AccOf(value))], Some(key)))
  {
    hide ParseOption, SectionHeader;
    assert !Has(opts, key);
  }

  lemma {:induction false} ValueRead(s: string, r: Reading, opts: Assoc<Acc>, key: string, v: string, spaced: bool,
                                     noValue: bool)
    requires Reached(s, r, noValue) && CurOpts(r) == Some(opts) && GoodOption(key, Some(v))
    requires forall i :: 0 <= i < |opts| ==> opts[i].0 != key
    ensures Reached(s + (key + Delim(spaced) + Indented(v) + "\n"),
                    Standing(r, opts + [(key, Some(Kept(v)))], Some(key)), noValue)
    decreases |v|
  {
    hide Strip, Reached, GoodKey, Standing, Indented, ReadLine, PushLine;
    match FindLast(v, '\n', |v|)
    case None =>
      IndentedPlain(v);
      FirstLineRead(s, r, opts, key, v, spaced, noValue);
    case Some(i) =>
      var a, b := v[..i], v[i + 1..];
      var head := key + Delim(spaced);
      ValueRead(s, r, opts, key, a, spaced, noValue);
      assert v == a + "\n" + b;
      IndentedSnoc(a, b);
      assert head + Indented(v) + "\n" == head + Indented(a) + "\n" + ("\t" + b + "\n");
      AppendAppend(s, head + Indented(a) + "\n", "\t" + b + "\n");
      LaterLineRead(s + (head + Indented(a) + "\n"), r, opts, key, Kept(a), b, noValue);
  }

  lemma {:induction false} LaterLineRead(s: string, r: Reading, opts: Assoc<Acc>, key: string, lines: seq<string>,
                                         b: string, noValue: bool)
    requires CurOpts(r).Some? && NoBreak(b) && forall i :: 0 <= i < |opts| ==> opts[i].0 != key
    requires Reached(s, Standing(r, opts + [(key, Some(lines))], Some(key)), noValue)
    ensures Reached(s + ("\t" + b + "\n"), Standing(r, opts + [(key, Some(lines + KeepLine(b)))], Some(key)), noValue)
  {
    hide Strip, Reached, PushLine, ReadLine;
    var st := Standing(r, opts + [(key, Some(lines))], Some(key));
    ContinuationLine(st, b, noValue);
    if KeepLine(b) == [] {
      Empties(lines);
    } else {
      PushesLast(r, opts, key, lines, KeepLine(b)[0]);
    }
    assert IsLine("\t" + b + "\n");
    Next(s, st, "\t" + b + "\n", noValue);
  }

  lemma {:induction false} BareRead(s: string, r: Reading, opts: Assoc<Acc>, key: string)
    requires Reached(s, r, true) && CurOpts(r) == Some(opts) && GoodOption(key, None)
    requires forall i :: 0 <= i < |opts| ==> opts[i].0 != key
    ensures Reached(s + (key + "\n"), Standing(r, opts + [(key, None)], Some(key)), true)
  {
    hide Strip, SkipSpaces, SectionHeader, ParseOption, Reached;
    var line := key + "\n";
    BareClean(key);
    assert IsLine(line);
    NewOption(r, opts, Strip(line), key, None, true);
    assert ReadLine(r, line, true) == ReadOption(r.(indent := 0), Strip(line), true);
    Next(s, r, line, true);
  }

  lemma {:induction false} NoneIsPlain(key: string)
    requires GoodOption(key, None)
    ensures GoodOption(key, Some("None")) && Kept("None") == ["None"] && Indented("None") == "None"
  {
    assert NoBreak("None") && FindLast("None", '\n', 4).None?;
    assert SplitLines("None") == ["None"];
    StripOfStripped("None");
    IndentedPlain("None");
  }

  /** One option of a written section. */
  lemma {:induction false} OptionRead(s: string, r: Reading, opts: Assoc<Acc>, key: string, value: Value, spaced: bool,
                                      noValue: bool)
    requires Reached(s, r, noValue) && CurOpts(r) == Some(opts) && GoodOption(key, value)
    requires forall i :: 0 <= i < |opts| ==> opts[i].0 != key
    ensures Reached(s + OptionText(key, value, spaced, noValue),
                    Standing(r, opts + [(key, AccRead(value, noValue))], Some(key)), noValue)
  {
    hide Reached, GoodOption, Standing, Kept;
    match value
    case Some(v) =>
      ValueRead(s, r, opts, key, v, spaced, noValue);
    case None =>
      if noValue {
        BareRead(s, r, opts, key);
      } else {
        NoneIsPlain(key);
        ValueRead(s, r, opts, key, "None", spaced, noValue);
      }
  }

  function Accs(opts: Opts, noValue: bool): (r: Assoc<Acc>)
    ensures |r| == |opts| && forall i :: 0 <= i < |r| ==> r[i] == (opts[i].0, AccRead(opts[i].1, noValue))
  {
    if opts == [] then []
    else
      var last := opts[|opts| - 1];
      Accs(opts[..|opts| - 1], noValue) + [(last.0, AccRead(last.1, noValue))]
  }

  function LastKey(opts: Opts): Option<string> {
    if opts == [] then None else Some(opts[|opts| - 1].0)
  }

  lemma {:induction false} StandingSame(r: Reading)
    requires CurOpts(r) == Some([]) && r.opt.None? && r.indent == 0
    ensures Standing(r, [], None) == r
  {
    if r.cur.InNamed? {
      var i := r.cur.at;
      assert r.sections[i] == (r.sections[i].0, []);
      assert r.sections[i := (r.sections[i].0, [])] == r.sections;
    }
  }

  lemma {:induction false} OptsRead(s: string, r: Reading, opts: Opts, spaced: bool, noValue: bool)
    requires Reached(s, r, noValue) && CurOpts(r) == Some([]) && r.opt.None? && r.indent == 0 && GoodOpts(opts)
    ensures Reached(s + OptsText(opts, spaced, noValue), Standing(r, Accs(opts, noValue), LastKey(opts)), noValue)
    decreases |opts|
  {
    hide Reached, GoodOption, AccRead, OptionText, Accs;
    if opts == [] {
      Empties(s);
      assert Accs(opts, noValue) == [];
      StandingSame(r);
    } else {
      var front, last := opts[..|opts| - 1], opts[|opts| - 1];
      OptsRead(s, r, front, spaced, noValue);
      var accs := Accs(front, noValue);
      var st := Standing(r, accs, LastKey(front));
      StandingAt(r, accs, LastKey(front), Accs(opts, noValue), Some(last.0));
      AppendAppend(s, OptsText(front, spaced, noValue), OptionText(last.0, last.1, spaced, noValue));
      OptionRead(s + OptsText(front, spaced, noValue), st, accs, last.0, last.1, spaced, noValue);
      assert Accs(opts, noValue) == accs + [(last.0, AccRead(last.1, noValue))];
    }
  }

  /** The blank line that ends a section goes to its last value, and is dropped when that is joined. */
  function Closed(accs: Assoc<Acc>): Assoc<Acc> {
    if accs == [] || accs[|accs| - 1].1.None? then accs
    else
      var last := accs[|accs| - 1];
      accs[..|accs| - 1] + [(last.0, Some(last.1.value + [""]))]
  }

  lemma {:induction false} SectionEnds(s: string, r: Reading, accs: Assoc<Acc>, key: Option<string>, noValue: bool)
    requires CurOpts(r).Some? && Distinct(accs) && key == if accs == [] then None else Some(accs[|accs| - 1].0)
    requires Reached(s, Standing(r, accs, key), noValue)
    ensures Reached(s + "\n", Standing(r, Closed(accs), key), noValue)
  {
    hide Reached, PushLine, ReadLine;
    var st := Standing(r, accs, key);
    BlankLine(st, noValue);
    Next(s, st, "\n", noValue);
    if accs != [] {
      var front, last := accs[..|accs| - 1], accs[|accs| - 1];
      assert accs == front + [last];
      if last.1.Some? {
        PushesLast(r, front, last.0, last.1.value, "");
      } else {
        PushesNothing(r, accs, last.0);
      }
    } else {
      PushesNowhere(st);
    }
  }

  lemma {:induction false} PushesNowhere(r: Reading)
    requires r.opt.None?
    ensures PushLine(r, "").None?
  {
  }

  lemma {:induction false} PushesNothing(r: Reading, accs: Assoc<Acc>, key: string)
    requires CurOpts(r).Some? && Distinct(accs) && accs != [] && accs[|accs| - 1] == (key, None)
    ensures PushLine(Standing(r, accs, Some(key)), "").None?
  {
    GetAt(accs, |accs| - 1);
    StandingAt(r, accs, Some(key), accs, Some(key));
  }

  lemma {:induction false} AccsDistinct(opts: Opts, noValue: bool)
    requires Distinct(opts)
    ensures Distinct(Accs(opts, noValue))
  {
    hide AccRead;
  }

  /** A section's options and its closing blank line. */
  lemma {:induction false} BodyRead(s: string, r: Reading, opts: Opts, spaced: bool, noValue: bool)
    requires Reached(s, r, noValue) && CurOpts(r) == Some([]) && r.opt.None? && r.indent == 0 && GoodOpts(opts)
    ensures Reached(s + (OptsText(opts, spaced, noValue) + "\n"),
                    Standing(r, Closed(Accs(opts, noValue)), LastKey(opts)), noValue)
  {
    hide Reached, OptsText, Accs, Closed, Standing, GoodOption;
    OptsRead(s, r, opts, spaced, noValue);
    AccsDistinct(opts, noValue);
    SectionEnds(s + OptsText(opts, spaced, noValue), r, Accs(opts, noValue), LastKey(opts), noValue);
    AppendAppend(s, OptsText(opts, spaced, noValue), "\n");
  }

  lemma {:induction false} SectionRead(s: string, r: Reading, name: string, opts: Opts, spaced: bool, noValue: bool)
    returns (after: Reading)
    requires Reached(s, r, noValue) && r.indent == 0 && name != "" && NoBreak(name) && GoodOpts(opts)
    requires if name == DEFAULT then r.default == [] else forall i :: 0 <= i < |r.sections| ==> r.sections[i].0 != name
    ensures Reached(s + SectionText(name, opts, spaced, noValue), after, noValue)
    ensures after.indent == 0 && after.faults == r.faults
    ensures var body := Closed(Accs(opts, noValue));
            if name == DEFAULT then after.default == body && after.sections == r.sections
            else after.default == r.default && after.sections == r.sections + [(name, body)]
  {
    hide Reached, OptsText, Accs, Closed, GoodOpts, ReadLine;
    var line := "[" + name + "]\n";
    HeaderLine(r, name, noValue);
    assert IsLine(line);
    Next(s, r, line, noValue);
    assert name != DEFAULT ==> !Has(r.sections, name);
    var begun := OpenSection(r, name).value;
    BodyRead(s + line, begun, opts, spaced, noValue);
    after := Standing(begun, Closed(Accs(opts, noValue)), LastKey(opts));
    AppendAppend(line, OptsText(opts, spaced, noValue), "\n");
    AppendAppend(s, line, OptsText(opts, spaced, noValue) + "\n");
    if name != DEFAULT {
      var n := |r.sections|;
      assert begun.sections[n := (name, Closed(Accs(opts, noValue)))] ==
             r.sections + [(name, Closed(Accs(opts, noValue)))];
    }
  }

  // ----- joining and merging

  lemma {:induction false} RstripOf(kept: string, b: string)
    requires AllSpace(b) && (kept == "" || !IsSpace(kept[|kept| - 1]))
    ensures Rstrip(kept + b) == kept
  {
    DropsAll(kept, b, 0);
    Halves(kept, b);
  }

  lemma {:induction false} RstripMore(s: string, b: string)
    requires AllSpace(b)
    ensures Rstrip(s + b) == Rstrip(s)
  {
    var kept, c := RstripParts(s);
    RstripOf(kept, c);
    AppendAppend(kept, c, b);
    RstripOf(kept, c + b);
  }

  lemma {:induction false} JoinBlank(lines: seq<string>)
    requires lines != []
    ensures Join(Some(lines + [""])) == Join(Some(lines))
  {
    hide Rstrip, JoinLines;
    JoinSnoc(lines, "");
    Blanks();
    Empties(JoinLines(lines) + "\n");
    RstripMore(JoinLines(lines), "\n");
  }

  function Normals(opts: Opts, noValue: bool): Opts {
    seq(|opts|, i requires 0 <= i < |opts| => (opts[i].0, Normal(opts[i].1, noValue)))
  }

  function NormalSections(sections: Assoc<Opts>, noValue: bool): Assoc<Opts> {
    seq(|sections|, i requires 0 <= i < |sections| => (sections[i].0, Normals(sections[i].1, noValue)))
  }

  /** The same sections and options in the same order, each value as it reads back. */
  function Normalized(cfg: Config): Config {
    cfg.(defaults := Normals(cfg.defaults, cfg.noValue), sections := NormalSections(cfg.sections, cfg.noValue))
  }

  /** Gathered options with distinct keys, merged into nothing. */
  lemma {:induction false} MergeNew(accs: Assoc<Acc>)
    requires Distinct(accs)
    ensures var r := MergeOpts([], accs);
            |r| == |accs| && forall i :: 0 <= i < |r| ==> r[i] == (accs[i].0, Join(accs[i].1))
    decreases |accs|
  {
    hide Join;
    if accs != [] {
      var front, last := accs[..|accs| - 1], accs[|accs| - 1];
      MergeNew(front);
      PutNew(MergeOpts([], front), last.0, Join(last.1));
    }
  }

  lemma {:induction false} ClosedJoins(opts: Opts, noValue: bool)
    requires Distinct(opts)
    ensures MergeOpts([], Closed(Accs(opts, noValue))) == Normals(opts, noValue)
  {
    hide Join, MergeOpts, AccRead;
    var accs := Accs(opts, noValue);
    var closed := Closed(accs);
    AccsDistinct(opts, noValue);
    assert |closed| == |accs| && forall i :: 0 <= i < |closed| ==> closed[i].0 == accs[i].0;
    MergeNew(closed);
    forall i | 0 <= i < |closed|
      ensures Join(closed[i].1) == Join(accs[i].1)
    {
      if i == |closed| - 1 && accs[i].1.Some? {
        AccIsSome(opts[i].1, noValue);
        JoinBlank(accs[i].1.value);
      }
    }
    forall i | 0 <= i < |closed|
      ensures MergeOpts([], closed)[i] == Normals(opts, noValue)[i]
    {
      assert accs[i] == (opts[i].0, AccRead(opts[i].1, noValue));
      assert Normals(opts, noValue)[i] == (opts[i].0, Normal(opts[i].1, noValue));
    }
  }

  lemma {:induction false} AccIsSome(value: Value, noValue: bool)
    ensures AccRead(value, noValue).Some? ==> AccRead(value, noValue).value != []
  {
  }

  /** The sections of a document, one after the other. */
  lemma {:induction false} SectionsRead(s: string, r: Reading, sections: Assoc<Opts>, spaced: bool, noValue: bool)
    returns (after: Reading)
    requires Reached(s, r, noValue) && r.indent == 0 && r.sections == [] && GoodSections(sections)
    ensures Reached(s + SectionsText(sections, spaced, noValue), after, noValue)
    ensures after.indent == 0 && after.faults == r.faults && after.default == r.default
    ensures |after.sections| == |sections|
    ensures forall i :: 0 <= i < |sections| ==>
              after.sections[i] == (sections[i].0, Closed(Accs(sections[i].1, noValue)))
    decreases |sections|
  {
    hide Reached, Accs, Closed, GoodOpts, SectionText;
    if sections == [] {
      Empties(s);
      after := r;
    } else {
      var front, last := sections[..|sections| - 1], sections[|sections| - 1];
      var mid := SectionsRead(s, r, front, spaced, noValue);
      after := SectionRead(s + SectionsText(front, spaced, noValue), mid, last.0, last.1, spaced, noValue);
      AppendAppend(s, SectionsText(front, spaced, noValue), SectionText(last.0, last.1, spaced, noValue));
    }
  }

  lemma {:induction false} MergeSectionsNew(from: Assoc<Assoc<Acc>>, sections: Assoc<Opts>, noValue: bool)
    requires GoodSections(sections) && |from| == |sections|
    requires forall i :: 0 <= i < |sections| ==> from[i] == (sections[i].0, Closed(Accs(sections[i].1, noValue)))
    ensures MergeSections([], from) == NormalSections(sections, noValue)
    decreases |from|
  {
    hide MergeOpts, Closed, Accs, GoodOption, Normals;
    if from != [] {
      var front, last := sections[..|sections| - 1], sections[|sections| - 1];
      MergeSectionsNew(from[..|from| - 1], front, noValue);
      var before := NormalSections(front, noValue);
      assert forall i :: 0 <= i < |before| ==> before[i].0 != last.0;
      assert Get(before, last.0).None?;
      ClosedJoins(last.1, noValue);
      PutNew(before, last.0, Normals(last.1, noValue));
      assert NormalSections(sections, noValue) == before + [(last.0, Normals(last.1, noValue))];
    }
  }

  lemma {:induction false} DefaultRead(cfg: Config, spaced: bool) returns (after: Reading)
    requires GoodConfig(cfg)
    ensures Reached(if cfg.defaults == [] then "" else SectionText(DEFAULT, cfg.defaults, spaced, cfg.noValue), after,
                    cfg.noValue)
    ensures after.indent == 0 && after.faults == 0 && after.sections == []
    ensures MergeOpts([], after.default) == Normals(cfg.defaults, cfg.noValue)
  {
    hide Closed, Accs, GoodOption, SectionText;
    assert Lines("") == [];
    assert Reached("", NOTHING_READ, cfg.noValue);
    if cfg.defaults == [] {
      after := NOTHING_READ;
      assert Normals([], cfg.noValue) == [];
    } else {
      hide Reached;
      after := SectionRead("", NOTHING_READ, DEFAULT, cfg.defaults, spaced, cfg.noValue);
      Empties(SectionText(DEFAULT, cfg.defaults, spaced, cfg.noValue));
      ClosedJoins(cfg.defaults, cfg.noValue);
    }
  }

  /** A fresh configuration with the same flags. */
  function Emptied(cfg: Config): Config {
    Config([], [], cfg.noValue, cfg.interp)
  }

  /**
    Writing a good configuration, with either delimiter, and reading the text afresh gives it back, values
    normalized.
  */
  lemma {:induction false} ReadsBack(cfg: Config, spaced: bool)
    requires GoodConfig(cfg)
    ensures Read(Emptied(cfg), Write(cfg, spaced)) == Ok(Normalized(cfg))
  {
    hide Reached, GoodOpts, GoodSections, SectionText, SectionsText, MergeOpts, MergeSections, Closed, Accs;
    var first := DefaultRead(cfg, spaced);
    var head := if cfg.defaults == [] then "" else SectionText(DEFAULT, cfg.defaults, spaced, cfg.noValue);
    var after := SectionsRead(head, first, cfg.sections, spaced, cfg.noValue);
    MergeSectionsNew(after.sections, cfg.sections, cfg.noValue);
    ReachedIs(Write(cfg, spaced), after, cfg.noValue);
  }

  lemma {:induction false} ReachedIs(s: string, r: Reading, noValue: bool)
    requires Reached(s, r, noValue)
    ensures ReadLines(NOTHING_READ, Lines(s), noValue) == Ok(r)
  {
  }
}
