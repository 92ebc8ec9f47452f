/** Every configuration the operations can produce can be written and read back. */
module IniReachable {
  import opened Bytes
  import opened IniText
  import opened IniModel
  import opened IniRead
  import opened IniRoundTrip
  import I = IniInterp
  import K = IniConfig

  // ----- lines as a read gathers them

  predicate CleanLines(ls: seq<string>) {
    && ls != []
    && (forall i :: 0 <= i < |ls| ==> NoBreak(ls[i]) && Stripped(ls[i]))
    && (forall i :: 1 <= i < |ls| ==> ls[i] == "" || !IsCommentMark(ls[i][0]))
  }

  function Trimmed(ls: seq<string>): (r: seq<string>)
    requires ls != []
    ensures r != [] && r[0] == ls[0] && r <= ls
    ensures |r| == 1 || r[|r| - 1] != ""
  {
    if |ls| > 1 && ls[|ls| - 1] == "" then Trimmed(ls[..|ls| - 1]) else ls
  }

  lemma {:induction false} KeptSnoc(a: string, b: string)
    requires NoBreak(b)
    ensures Kept(a + "\n" + b) == Kept(a) + KeepLine(b)
  {
    hide KeepLine;
    var t := a + "\n" + b;
    assert t[|a|] == '\n';
    assert forall k :: |a| < k < |t| ==> t[k] == b[k - |a| - 1];
    assert FindLast(t, '\n', |t|) == Some(|a|);
    assert t[..|a|] == a && t[|a| + 1..] == b;
  }

  /** A line that may follow: stripped, unbroken, not a comment. */
  predicate CleanLine(line: string) {
    NoBreak(line) && Stripped(line) && (line == "" || !IsCommentMark(line[0]))
  }

  lemma {:induction false} CleanFront(ls: seq<string>)
    requires CleanLines(ls) && |ls| > 1
    ensures CleanLines(ls[..|ls| - 1]) && CleanLine(ls[|ls| - 1])
    ensures JoinLines(ls) == JoinLines(ls[..|ls| - 1]) + "\n" + ls[|ls| - 1]
  {
    hide Stripped;
  }

  lemma {:induction false} CleanKept(line: string)
    requires CleanLine(line)
    ensures KeepLine(line) == [line] && Kept(line) == [line]
  {
    hide Strip;
    StripOfStripped(line);
    assert FindLast(line, '\n', |line|).None?;
  }

  /** Clean lines, written as one value, are read back line for line. */
  lemma {:induction false} KeptJoin(ls: seq<string>)
    requires ls != [] && CleanLines(ls)
    ensures Kept(JoinLines(ls)) == ls
    decreases |ls|
  {
    hide CleanLines, CleanLine, JoinLines, Kept, KeepLine;
    if |ls| == 1 {
      KeptOne(ls);
    } else {
      var front, l := ls[..|ls| - 1], ls[|ls| - 1];
      CleanFront(ls);
      CleanUnbroken(l);
      KeptJoin(front);
      KeptSnoc(JoinLines(front), l);
      CleanKept(l);
    }
  }

  lemma {:induction false} KeptOne(ls: seq<string>)
    requires CleanLines(ls) && |ls| == 1
    ensures Kept(JoinLines(ls)) == ls
  {
    hide Strip;
    StripOfStripped(ls[0]);
    assert FindLast(ls[0], '\n', |ls[0]|).None?;
  }

  lemma {:induction false} CleanUnbroken(line: string)
    requires CleanLine(line)
    ensures NoBreak(line)
  {
  }

  lemma {:induction false} JoinTrims(ls: seq<string>)
    requires ls != [] && CleanLines(ls)
    ensures CleanLines(Trimmed(ls)) && Rstrip(JoinLines(ls)) == JoinLines(Trimmed(ls))
    decreases |ls|
  {
    hide Rstrip, CleanLines, JoinLines;
    Blanks();
    if |ls| > 1 && ls[|ls| - 1] == "" {
      var front := ls[..|ls| - 1];
      CleanFront(ls);
      JoinTrims(front);
      Empties(JoinLines(front) + "\n");
      RstripMore(JoinLines(front), "\n");
    } else {
      Empties(JoinLines(ls));
      JoinEnds(ls);
      RstripOf(JoinLines(ls), "");
    }
  }

  lemma {:induction false} JoinEnds(ls: seq<string>)
    requires CleanLines(ls) && (|ls| == 1 || ls[|ls| - 1] != "")
    ensures JoinLines(ls) == "" || !IsSpace(JoinLines(ls)[|JoinLines(ls)| - 1])
  {
    var last := ls[|ls| - 1];
    assert last != "" ==> JoinLines(ls)[|JoinLines(ls)| - 1] == last[|last| - 1];
  }

  /** A value a read produced reads back as itself, and starts with the line it started with. */
  lemma {:induction false} ReadValueIsNormal(ls: seq<string>, noValue: bool)
    requires ls != [] && CleanLines(ls)
    ensures Normal(Join(Some(ls)), noValue) == Join(Some(ls))
    ensures SplitLines(Join(Some(ls)).value)[0] == ls[0]
  {
    hide Rstrip, JoinLines, Kept, CleanLines;
    JoinTrims(ls);
    var t := Trimmed(ls);
    KeptJoin(t);
    JoinTrims(t);
    assert Trimmed(t) == t;
    CleanIsBroken(t);
    SplitJoin(t);
  }

  lemma {:induction false} CleanIsBroken(ls: seq<string>)
    requires CleanLines(ls)
    ensures AllNoBreak(ls)
  {
  }

  /**
    What a value must look like to survive: nothing to strip on any line, no later line a comment, no blank
    last line.
  */
  predicate Survives(value: Value, noValue: bool) {
    match value
    case None => noValue
    case Some(v) => CleanLines(SplitLines(v)) && (NoBreak(v) || v[|v| - 1] != '\n')
  }

  lemma {:induction false} StripsClean(line: string)
    requires NoBreak(line)
    ensures NoBreak(Strip(line)) && Stripped(Strip(line))
  {
    StripsToStripped(line);
  }

  lemma {:induction false} KeptIsClean(v: string)
    ensures CleanLines(Kept(v))
    decreases |v|
  {
    hide Strip, Stripped;
    match FindLast(v, '\n', |v|)
    case None =>
      StripsClean(v);
    case Some(i) =>
      KeptIsClean(v[..i]);
      StripsClean(v[i + 1..]);
      assert forall k :: 0 <= k < |Kept(v[..i])| ==> Kept(v)[k] == Kept(v[..i])[k];
  }

  /** The last line is blank exactly when the text ends with a break. */
  lemma {:induction false} LastLine(v: string)
    ensures var ls := SplitLines(v);
            (|ls| == 1 || ls[|ls| - 1] != "") <==> (NoBreak(v) || v[|v| - 1] != '\n')
  {
    JoinSplit(v);
    SplitIsBroken(v);
  }

  /** A value reads back as itself exactly when it survives; a read only ever stores such values. */
  lemma {:induction false} ValueReadsBackIff(value: Value, noValue: bool)
    ensures Normal(value, noValue) == value <==> Survives(value, noValue)
  {
    hide Kept, CleanLines, JoinLines, Rstrip, SplitLines;
    if value.Some? {
      var v := value.value;
      var ls, kept := SplitLines(v), Kept(v);
      LastLine(v);
      if Survives(value, noValue) {
        JoinSplit(v);
        KeptJoin(ls);
        JoinTrims(ls);
      } else if Normal(value, noValue) == value {
        KeptIsClean(v);
        JoinTrims(kept);
        CleanIsBroken(Trimmed(kept));
        SplitJoin(Trimmed(kept));
      }
    }
  }

  /** Not every value does: a leading space is lost. */
  lemma {:induction false} LeadingSpaceIsLost(noValue: bool)
    ensures !Survives(Some(" a"), noValue) && Normal(Some(" a"), noValue) == Some("a")
  {
    assert " a" == " " + "a" + "";
    Blanks();
    StripSurrounded(" ", "a", "");
    assert FindLast(" a", '\n', 2).None?;
    assert Kept(" a") == ["a"];
    Empties("a");
    RstripOf("a", "");
    ValueReadsBackIff(Some(" a"), noValue);
  }

  // ----- what a read keeps

  /** An option as gathered. */
  predicate GoodAcc(e: (string, Acc)) {
    && GoodKey(e.0) && (e.1.Some? ==> CleanLines(e.1.value))
    && (e.0[0] == '[' ==> NoBracket(e.0, 2) && (e.1.Some? ==> NoBracket(e.1.value[0], 0)))
  }

  predicate GoodAccs(accs: Assoc<Acc>) {
    Distinct(accs) && forall i :: 0 <= i < |accs| ==> GoodAcc(accs[i])
  }

  predicate GoodReading(r: Reading) {
    && GoodAccs(r.default) && Distinct(r.sections)
    && (forall i :: 0 <= i < |r.sections| ==> GoodName(r.sections[i].0) && GoodAccs(r.sections[i].1))
  }

  lemma {:induction false} GoodCur(r: Reading)
    requires GoodReading(r) && CurOpts(r).Some?
    ensures GoodAccs(CurOpts(r).value)
  {
  }

  lemma {:induction false} GoodWith(r: Reading, opts: Assoc<Acc>)
    requires GoodReading(r) && GoodAccs(opts)
    ensures GoodReading(WithOpts(r, opts))
  {
    hide GoodAccs;
    if r.cur.InNamed? && r.cur.at < |r.sections| {
      var next := WithOpts(r, opts).sections;
      assert forall i :: 0 <= i < |next| ==> next[i].0 == r.sections[i].0;
    }
  }

  lemma {:induction false} GoodPut(accs: Assoc<Acc>, e: (string, Acc))
    requires GoodAccs(accs) && GoodAcc(e)
    ensures GoodAccs(Put(accs, e.0, e.1))
  {
    hide GoodAcc;
    PutDistinct(accs, e.0, e.1);
  }

  lemma {:induction false} GoodPush(r: Reading, line: string)
    requires GoodReading(r) && CleanLine(line) && PushLine(r, line).Some?
    ensures GoodReading(PushLine(r, line).value)
  {
    hide GoodReading, CleanLines, GoodKey, NoBracket;
    GoodCur(r);
    var opts, name := CurOpts(r).value, r.opt.value;
    var i := Find(opts, name, 0).value;
    var lines := opts[i].1.value;
    assert GoodAcc(opts[i]);
    CleanMore(lines, line);
    assert GoodAcc((name, Some(lines + [line])));
    GoodPut(opts, (name, Some(lines + [line])));
    GoodWith(r, Put(opts, name, Some(lines + [line])));
  }

  lemma {:induction false} CleanMore(lines: seq<string>, line: string)
    requires CleanLines(lines) && CleanLine(line)
    ensures CleanLines(lines + [line]) && (lines + [line])[0] == lines[0]
  {
  }

  /** A document line: a break at its end at most. */
  predicate TextLine(line: string) {
    forall i :: 0 <= i < |line| - 1 ==> line[i] != '\n'
  }

  lemma {:induction false} LinesAreLines(s: string)
    ensures forall i :: 0 <= i < |Lines(s)| ==> TextLine(Lines(s)[i])
    decreases |s|
  {
    if s != "" {
      match FindLast(s, '\n', |s| - 1)
      case None =>
      case Some(i) => LinesAreLines(s[..i + 1]);
    }
  }

  lemma {:induction false} StripUnbroken(line: string)
    requires TextLine(line)
    ensures NoBreak(Strip(line)) && Stripped(Strip(line))
  {
  }

  /** The name and value of an option line. */
  lemma {:induction false} OptionGood(clean: string, noValue: bool)
    requires NoBreak(clean) && Stripped(clean) && clean != "" && !IsCommentMark(clean[0]) && SectionHeader(clean).None?
    requires ParseOption(clean, noValue).Some? && ParseOption(clean, noValue).value.0 != ""
    ensures var (raw, value) := ParseOption(clean, noValue).value;
            GoodAcc((OptionXform(raw), AccOf(value)))
  {
    hide CleanLines, GoodKey, Strip, Rstrip, OptionXform, NoBracket, SectionHeader, NoBreak, Stripped;
    var (raw, value) := ParseOption(clean, noValue).value;
    var p := FirstDelimiter(clean, 0);
    var n := if p.Some? then p.value else |clean|;
    NameOf(clean, n);
    LowerKeeps();
    if value.Some? {
      ValueLine(clean, n + 1);
    }
    if clean[0] == '[' {
      NotAHeader(clean, n);
    }
  }

  /** The name in front of the delimiter. */
  lemma {:induction false} NameOf(clean: string, n: nat)
    requires NoBreak(clean) && Stripped(clean) && clean != "" && !IsCommentMark(clean[0])
    requires n <= |clean| && forall i :: 0 <= i < n ==> !IsDelimiter(clean[i])
    ensures var raw := Rstrip(clean[..n]);
            && (raw != "" ==> GoodKey(OptionXform(raw)) && OptionXform(raw)[0] == LowerChar(clean[0]))
            && (NoBracket(clean, 2) ==> NoBracket(OptionXform(raw), 2))
    ensures clean[..|clean|] == clean
  {
    hide Rstrip, GoodKey, OptionXform;
    RawKey(clean[..n]);
  }

  /** A line that starts like a header and is none has no bracket to close it. */
  lemma {:induction false} NotAHeader(clean: string, n: nat)
    requires clean != "" && clean[0] == '[' && SectionHeader(clean).None?
             && n <= |clean| && (n < |clean| ==> IsDelimiter(clean[n]))
    ensures NoBracket(clean, 2) && NoBracket(clean, n + 1)
  {
  }

  lemma {:induction false} ValueLine(clean: string, from: nat)
    requires NoBreak(clean) && from <= |clean|
    ensures CleanLines([Strip(clean[from..])])
    ensures NoBracket(clean, from) ==> NoBracket(Strip(clean[from..]), 0)
  {
    hide Strip;
    var rest := clean[from..];
    StripsToStripped(rest);
    var lo := StripIsSlice(rest);
    assert forall i :: 0 <= i < |Strip(rest)| ==> Strip(rest)[i] == clean[from + lo + i];
  }

  lemma {:induction false} StripIsSlice(s: string) returns (lo: nat)
    ensures lo + |Strip(s)| <= |s| && Strip(s) == s[lo..lo + |Strip(s)|]
  {
    lo := SkipSpaces(s, 0);
  }

  lemma {:induction false} RawKey(before: string)
    requires NoBreak(before) && (before == "" || (!IsSpace(before[0]) && !IsCommentMark(before[0])))
    requires forall i :: 0 <= i < |before| ==> !IsDelimiter(before[i])
    ensures var raw := Rstrip(before);
            && raw <= before && (raw != "" ==> GoodKey(OptionXform(raw)) && OptionXform(raw)[0] == LowerChar(before[0]))
            && (NoBracket(before, 2) ==> NoBracket(OptionXform(raw), 2))
  {
    var raw := Rstrip(before);
    var key := OptionXform(raw);
    assert forall i :: 0 <= i < |key| ==> key[i] == LowerChar(before[i]);
    LowerKeeps();
    assert OptionXform(key) == key;
  }

  lemma {:induction false} LowerKeeps()
    ensures forall c :: LowerChar(LowerChar(c)) == LowerChar(c)
    ensures forall c :: IsSpace(LowerChar(c)) == IsSpace(c) && IsDelimiter(LowerChar(c)) == IsDelimiter(c)
    ensures forall c :: IsCommentMark(LowerChar(c)) == IsCommentMark(c)
    ensures forall c ::
              (LowerChar(c) == '[') == (c == '[') && (LowerChar(c) == ']') == (c == ']')
              && (LowerChar(c) == '\n') == (c == '\n')
  {
  }

  lemma {:induction false} GoodOpen(r: Reading, clean: string)
    requires GoodReading(r) && NoBreak(clean) && SectionHeader(clean).Some?
             && OpenSection(r, SectionHeader(clean).value).Ok?
    ensures GoodReading(OpenSection(r, SectionHeader(clean).value).value)
  {
    hide GoodAccs;
    assert GoodAccs([]) by { NothingIsGood(); }
  }

  lemma {:induction false} NothingIsGood()
    ensures GoodAccs([])
  {
  }

  lemma {:induction false} GoodOptionLine(r: Reading, clean: string, noValue: bool)
    requires GoodReading(r) && CurOpts(r).Some?
    requires NoBreak(clean) && Stripped(clean) && clean != "" && !IsCommentMark(clean[0]) && SectionHeader(clean).None?
    requires ReadOption(r, clean, noValue).Ok?
    ensures GoodReading(ReadOption(r, clean, noValue).value)
  {
    hide GoodReading, GoodAcc, SectionHeader, ParseOption;
    var parsed := ParseOption(clean, noValue);
    GoodCur(r);
    if parsed.Some? && parsed.value.0 != "" {
      OptionGood(clean, noValue);
      var key, acc, opts := OptionXform(parsed.value.0), AccOf(parsed.value.1), CurOpts(r).value;
      assert ReadOption(r, clean, noValue) == Ok(WithOpts(r, opts + [(key, acc)]).(opt := Some(key)));
      GoodMore(opts, (key, acc));
      GoodWith(r, opts + [(key, acc)]);
      StandsAnywhere(WithOpts(r, opts + [(key, acc)]), Some(key), r.faults);
    } else {
      StandsAnywhere(r, r.opt, r.faults + 1);
    }
  }

  lemma {:induction false} StandsAnywhere(r: Reading, opt: Option<string>, faults: nat)
    requires GoodReading(r)
    ensures GoodReading(r.(opt := opt)) && GoodReading(r.(faults := faults))
  {
    hide GoodAccs;
  }

  lemma {:induction false} GoodMore(opts: Assoc<Acc>, e: (string, Acc))
    requires GoodAccs(opts) && GoodAcc(e) && !Has(opts, e.0)
    ensures GoodAccs(opts + [e])
  {
    hide GoodAcc;
  }

  lemma {:induction false} GoodLine(r: Reading, line: string, noValue: bool)
    requires GoodReading(r) && TextLine(line) && ReadLine(r, line, noValue).Ok?
    ensures GoodReading(ReadLine(r, line, noValue).value)
  {
    StripUnbroken(line);
    hide Strip, SkipSpaces, GoodReading, PushLine, SectionHeader, ReadOption, OpenSection;
    var clean := Strip(line);
    if clean == "" {
      if PushLine(r, "").Some? {
        GoodPush(r, "");
      }
    } else if !IsCommentMark(clean[0]) {
      var indent := SkipSpaces(line, 0);
      if r.cur != NoSection && r.opt.Some? && indent > r.indent {
        if PushLine(r, clean).Some? {
          GoodPush(r, clean);
        }
      } else if SectionHeader(clean).Some? {
        GoodOpen(r, clean);
      } else {
        Indenting(r, indent);
        GoodOptionLine(r.(indent := indent), clean, noValue);
      }
    }
  }

  lemma {:induction false} Indenting(r: Reading, indent: nat)
    requires GoodReading(r)
    ensures GoodReading(r.(indent := indent))
  {
    hide GoodAccs;
  }

  lemma {:induction false} GoodLines(lines: seq<string>, noValue: bool)
    requires forall i :: 0 <= i < |lines| ==> TextLine(lines[i])
    requires ReadLines(NOTHING_READ, lines, noValue).Ok?
    ensures GoodReading(ReadLines(NOTHING_READ, lines, noValue).value)
    decreases |lines|
  {
    hide GoodReading, ReadLine;
    if lines == [] {
      NothingReadIsGood();
    } else {
      var front := lines[..|lines| - 1];
      GoodLines(front, noValue);
      GoodLine(ReadLines(NOTHING_READ, front, noValue).value, lines[|lines| - 1], noValue);
    }
  }

  lemma {:induction false} NothingReadIsGood()
    ensures GoodReading(NOTHING_READ)
  {
  }

  // ----- stored values, and whether they came from a read

  /** Reads back as itself, or was handed to `set`. */
  predicate Traced(v: Value, noValue: bool, given: set<Value>) {
    Normal(v, noValue) == v || v in given
  }

  /** Good to write, and every value accounted for. */
  predicate KnownOpts(opts: Opts, noValue: bool, given: set<Value>) {
    GoodOpts(opts) && forall i :: 0 <= i < |opts| ==> Traced(opts[i].1, noValue, given)
  }

  predicate KnownSections(sections: Assoc<Opts>, noValue: bool, given: set<Value>) {
    && Distinct(sections)
    && forall i :: 0 <= i < |sections| ==> GoodName(sections[i].0) && KnownOpts(sections[i].1, noValue, given)
  }

  predicate Known(cfg: Config, given: set<Value>) {
    KnownOpts(cfg.defaults, cfg.noValue, given) && KnownSections(cfg.sections, cfg.noValue, given)
  }

  lemma {:induction false} PutKnown(opts: Opts, key: string, v: Value, noValue: bool, given: set<Value>)
    requires KnownOpts(opts, noValue, given) && GoodOption(key, v) && Traced(v, noValue, given)
    ensures KnownOpts(Put(opts, key, v), noValue, given)
  {
    hide GoodOption, Traced;
    PutDistinct(opts, key, v);
  }

  lemma {:induction false} DelKnown(opts: Opts, key: string, noValue: bool, given: set<Value>)
    requires KnownOpts(opts, noValue, given)
    ensures KnownOpts(Del(opts, key), noValue, given)
  {
    hide GoodOption, Traced;
    DelDistinct(opts, key);
  }

  lemma {:induction false} PutSection(sections: Assoc<Opts>, name: string, opts: Opts, noValue: bool, given: set<Value>)
    requires KnownSections(sections, noValue, given) && GoodName(name) && KnownOpts(opts, noValue, given)
    ensures KnownSections(Put(sections, name, opts), noValue, given)
  {
    hide KnownOpts;
    PutDistinct(sections, name, opts);
  }

  lemma {:induction false} DelSection(sections: Assoc<Opts>, name: string, noValue: bool, given: set<Value>)
    requires KnownSections(sections, noValue, given)
    ensures KnownSections(Del(sections, name), noValue, given)
  {
    hide KnownOpts;
    DelDistinct(sections, name);
  }

  /** Joining what a read gathered gives a value that reads back as itself. */
  lemma {:induction false} JoinKnown(e: (string, Acc), noValue: bool, given: set<Value>)
    requires GoodAcc(e) && (e.1.None? ==> noValue)
    ensures GoodOption(e.0, Join(e.1)) && Traced(Join(e.1), noValue, given)
  {
    if e.1.Some? {
      hide Join, SplitLines, Normal, CleanLines;
      assert e.1.value != [] by { CleanSome(e.1.value); }
      ReadValueIsNormal(e.1.value, noValue);
      JoinSome(e.1);
    }
  }

  lemma {:induction false} CleanSome(ls: seq<string>)
    requires CleanLines(ls)
    ensures ls != []
  {
  }

  lemma {:induction false} JoinSome(acc: Acc)
    ensures Join(acc).Some? <==> acc.Some?
  {
  }

  predicate ValuesOk(accs: Assoc<Acc>, noValue: bool) {
    forall i :: 0 <= i < |accs| ==> accs[i].1.None? ==> noValue
  }

  lemma {:induction false} MergeKnown(into: Opts, from: Assoc<Acc>, noValue: bool, given: set<Value>)
    requires KnownOpts(into, noValue, given) && GoodAccs(from) && ValuesOk(from, noValue)
    ensures KnownOpts(MergeOpts(into, from), noValue, given)
    decreases |from|
  {
    hide KnownOpts, GoodAcc, Join, Put;
    if from != [] {
      var front, last := from[..|from| - 1], from[|from| - 1];
      MergeKnown(into, front, noValue, given);
      JoinKnown(last, noValue, given);
      PutKnown(MergeOpts(into, front), last.0, Join(last.1), noValue, given);
    }
  }

  predicate SectionsOk(sections: Assoc<Assoc<Acc>>, noValue: bool) {
    forall i :: 0 <= i < |sections| ==> ValuesOk(sections[i].1, noValue)
  }

  lemma {:induction false} MergeSectionsKnown(into: Assoc<Opts>, from: Assoc<Assoc<Acc>>, noValue: bool,
                                              given: set<Value>)
    requires KnownSections(into, noValue, given) && SectionsOk(from, noValue)
    requires forall i :: 0 <= i < |from| ==> GoodName(from[i].0) && GoodAccs(from[i].1)
    ensures KnownSections(MergeSections(into, from), noValue, given)
    decreases |from|
  {
    hide GoodAccs, KnownOpts, MergeOpts, Put, ValuesOk;
    if from != [] {
      var front, last := from[..|from| - 1], from[|from| - 1];
      MergeSectionsKnown(into, front, noValue, given);
      var before := MergeSections(into, front);
      var target := match Get(before, last.0) case Some(there) => there case None => [];
      assert KnownOpts(target, noValue, given) by { NoOptsKnown(noValue, given); }
      MergeKnown(target, last.1, noValue, given);
      PutSection(before, last.0, MergeOpts(target, last.1), noValue, given);
    }
  }

  lemma {:induction false} NoOptsKnown(noValue: bool, given: set<Value>)
    ensures KnownOpts([], noValue, given)
  {
  }

  predicate ReadOk(r: Reading, noValue: bool) {
    ValuesOk(r.default, noValue) && SectionsOk(r.sections, noValue)
  }

  lemma {:induction false} WithOk(r: Reading, opts: Assoc<Acc>, noValue: bool)
    requires ReadOk(r, noValue) && ValuesOk(opts, noValue)
    ensures ReadOk(WithOpts(r, opts), noValue)
    ensures CurOpts(r).Some? ==> ValuesOk(CurOpts(r).value, noValue)
  {
    hide ValuesOk;
  }

  lemma {:induction false} PushOk(r: Reading, line: string, noValue: bool)
    requires ReadOk(r, noValue) && PushLine(r, line).Some?
    ensures ReadOk(PushLine(r, line).value, noValue)
  {
    var opts, name := CurOpts(r).value, r.opt.value;
    var lines := Get(opts, name).value.value;
    assert ValuesOk(Put(opts, name, Some(lines + [line])), noValue);
    WithOk(r, Put(opts, name, Some(lines + [line])), noValue);
  }

  lemma {:induction false} OptionOk(r: Reading, clean: string, noValue: bool)
    requires ReadOk(r, noValue) && CurOpts(r).Some? && ReadOption(r, clean, noValue).Ok?
    ensures ReadOk(ReadOption(r, clean, noValue).value, noValue)
  {
    hide Rstrip, Strip;
    var parsed := ParseOption(clean, noValue);
    if parsed.Some? && OptionXform(parsed.value.0) != "" {
      var opts := CurOpts(r).value + [(OptionXform(parsed.value.0), AccOf(parsed.value.1))];
      assert ValuesOk(CurOpts(r).value, noValue);
      assert ValuesOk(opts, noValue);
      WithOk(r, opts, noValue);
    }
  }

  lemma {:induction false} LineOk(r: Reading, line: string, noValue: bool)
    requires ReadOk(r, noValue) && ReadLine(r, line, noValue).Ok?
    ensures ReadOk(ReadLine(r, line, noValue).value, noValue)
  {
    hide Strip, SkipSpaces, PushLine, ReadOption, SectionHeader;
    var clean := Strip(line);
    if clean == "" {
      if PushLine(r, "").Some? {
        PushOk(r, "", noValue);
      }
    } else if !IsCommentMark(clean[0]) {
      var indent := SkipSpaces(line, 0);
      if r.cur != NoSection && r.opt.Some? && indent > r.indent {
        if PushLine(r, clean).Some? {
          PushOk(r, clean, noValue);
        }
      } else if SectionHeader(clean).None? {
        OptionOk(r.(indent := indent), clean, noValue);
      }
    }
  }

  lemma {:induction false} LinesOk(lines: seq<string>, noValue: bool)
    requires ReadLines(NOTHING_READ, lines, noValue).Ok?
    ensures ReadOk(ReadLines(NOTHING_READ, lines, noValue).value, noValue)
    decreases |lines|
  {
    hide ReadLine;
    if lines != [] {
      var front := lines[..|lines| - 1];
      LinesOk(front, noValue);
      LineOk(ReadLines(NOTHING_READ, front, noValue).value, lines[|lines| - 1], noValue);
    }
  }

  // ----- every operation

  /** Reading a document keeps the configuration good, and adds only values that read back as themselves. */
  lemma {:induction false} ReadKeeps(cfg: Config, text: string, given: set<Value>)
    requires Known(cfg, given) && Read(cfg, text).Ok?
    ensures Known(Read(cfg, text).value, given)
  {
    hide ReadLines, MergeOpts, MergeSections, KnownOpts, KnownSections, GoodAccs, ValuesOk, SectionsOk;
    LinesAreLines(text);
    GoodLines(Lines(text), cfg.noValue);
    LinesOk(Lines(text), cfg.noValue);
    var r := ReadLines(NOTHING_READ, Lines(text), cfg.noValue).value;
    MergeKnown(cfg.defaults, r.default, cfg.noValue, given);
    MergeSectionsKnown(cfg.sections, r.sections, cfg.noValue, given);
  }

  lemma {:induction false} AddKeeps(cfg: Config, name: string, given: set<Value>)
    requires Known(cfg, given) && AddSection(cfg, name).Ok?
    ensures Known(AddSection(cfg, name).value, given)
  {
    hide KnownOpts, KnownSections, Put;
    NoOptsKnown(cfg.noValue, given);
    PutSection(cfg.sections, name, [], cfg.noValue, given);
  }

  lemma {:induction false} ScreenedKeyIsGood(option: string, value: Value)
    requires !KeyFault(OptionXform(option))
    ensures GoodOption(OptionXform(option), value)
  {
    var key := OptionXform(option);
    LowerKeeps();
    assert OptionXform(key) == key;
  }

  lemma {:induction false} SectionKnown(cfg: Config, section: string, given: set<Value>)
    requires Known(cfg, given) && Get(cfg.sections, section).Some?
    ensures GoodName(section) && KnownOpts(Get(cfg.sections, section).value, cfg.noValue, given)
  {
    hide KnownOpts;
  }

  lemma {:induction false} SetKeeps(cfg: Config, section: string, option: string, value: Value, admits: string -> bool,
                                    given: set<Value>)
    requires Known(cfg, given) && value in given && Set(cfg, section, option, value, admits).Ok?
    ensures Known(Set(cfg, section, option, value, admits).value, given)
  {
    hide KnownOpts, KnownSections, Put, OptionXform, KeyFault;
    var key := OptionXform(option);
    ScreenedKeyIsGood(option, value);
    if section == DEFAULT {
      PutKnown(cfg.defaults, key, value, cfg.noValue, given);
    } else {
      SectionKnown(cfg, section, given);
      var opts := Get(cfg.sections, section).value;
      PutKnown(opts, key, value, cfg.noValue, given);
      PutSection(cfg.sections, section, Put(opts, key, value), cfg.noValue, given);
    }
  }

  lemma {:induction false} RemoveOptionKeeps(cfg: Config, section: string, option: string, given: set<Value>)
    requires Known(cfg, given) && RemoveOption(cfg, section, option).Ok?
    ensures Known(RemoveOption(cfg, section, option).value, given)
  {
    hide KnownOpts, KnownSections, Put, Del, OptionXform;
    var key := OptionXform(option);
    if section == DEFAULT {
      DelKnown(cfg.defaults, key, cfg.noValue, given);
    } else {
      SectionKnown(cfg, section, given);
      var opts := Get(cfg.sections, section).value;
      DelKnown(opts, key, cfg.noValue, given);
      PutSection(cfg.sections, section, Del(opts, key), cfg.noValue, given);
    }
  }

  datatype Op =
    | ReadText(text: string)
    | Add(name: string)
    | Assign(section: string, option: string, value: Value)
    | DropSection(name: string)
    | DropOption(section: string, option: string)

  /** An operation that fails changes nothing. */
  function Apply(cfg: Config, op: Op, admits: string -> bool): Config {
    var r := match op
      case ReadText(text) => Read(cfg, text)
      case Add(name) => AddSection(cfg, name)
      case Assign(section, option, value) => Set(cfg, section, option, value, admits)
      case DropSection(name) => Ok(RemoveSection(cfg, name))
      case DropOption(section, option) => RemoveOption(cfg, section, option);
    match r
    case Ok(next) => next
    case Err(_) => cfg
  }

  function ApplyAll(cfg: Config, ops: seq<Op>, admits: string -> bool): Config {
    if ops == [] then cfg else Apply(ApplyAll(cfg, ops[..|ops| - 1], admits), ops[|ops| - 1], admits)
  }

  /** The values the operations hand to `set`. */
  function Given(ops: seq<Op>): set<Value> {
    set i | 0 <= i < |ops| && ops[i].Assign? :: ops[i].value
  }

  lemma {:induction false} ApplyKeeps(cfg: Config, op: Op, admits: string -> bool, given: set<Value>)
    requires Known(cfg, given) && (op.Assign? ==> op.value in given)
    ensures Known(Apply(cfg, op, admits), given) && Apply(cfg, op, admits).noValue == cfg.noValue
    ensures Apply(cfg, op, admits).interp == cfg.interp
  {
    hide KnownOpts, KnownSections, Read, Set, RemoveOption, AddSection;
    match op
    case ReadText(text) =>
      if Read(cfg, text).Ok? {
        ReadKeeps(cfg, text, given);
        ReadFlags(cfg, text);
      }
    case Add(name) =>
      if AddSection(cfg, name).Ok? {
        AddKeeps(cfg, name, given);
        AddFlags(cfg, name);
      }
    case Assign(section, option, value) =>
      if Set(cfg, section, option, value, admits).Ok? {
        SetKeeps(cfg, section, option, value, admits, given);
        SetFlags(cfg, section, option, value, admits);
      }
    case DropSection(name) => DelSection(cfg.sections, name, cfg.noValue, given);
    case DropOption(section, option) =>
      if RemoveOption(cfg, section, option).Ok? {
        RemoveOptionKeeps(cfg, section, option, given);
        RemoveFlags(cfg, section, option);
      }
  }

  lemma {:induction false} ReadFlags(cfg: Config, text: string)
    requires Read(cfg, text).Ok?
    ensures Read(cfg, text).value.noValue == cfg.noValue && Read(cfg, text).value.interp == cfg.interp
  {
  }

  lemma {:induction false} AddFlags(cfg: Config, name: string)
    requires AddSection(cfg, name).Ok?
    ensures AddSection(cfg, name).value.noValue == cfg.noValue && AddSection(cfg, name).value.interp == cfg.interp
  {
  }

  lemma {:induction false} SetFlags(cfg: Config, section: string, option: string, value: Value, admits: string -> bool)
    requires Set(cfg, section, option, value, admits).Ok?
    ensures var r := Set(cfg, section, option, value, admits).value; r.noValue == cfg.noValue && r.interp == cfg.interp
  {
  }

  lemma {:induction false} RemoveFlags(cfg: Config, section: string, option: string)
    requires RemoveOption(cfg, section, option).Ok?
    ensures var r := RemoveOption(cfg, section, option).value; r.noValue == cfg.noValue && r.interp == cfg.interp
  {
  }

  lemma {:induction false} AllKeep(cfg: Config, ops: seq<Op>, admits: string -> bool, given: set<Value>)
    requires Known(cfg, given) && Given(ops) <= given
    ensures Known(ApplyAll(cfg, ops, admits), given) && ApplyAll(cfg, ops, admits).noValue == cfg.noValue
    ensures ApplyAll(cfg, ops, admits).interp == cfg.interp
    decreases |ops|
  {
    hide Known, Apply;
    if ops != [] {
      var front, last := ops[..|ops| - 1], ops[|ops| - 1];
      assert Given(front) <= Given(ops);
      assert last.Assign? ==> last.value in Given(ops);
      AllKeep(cfg, front, admits, given);
      ApplyKeeps(ApplyAll(cfg, front, admits), last, admits, given);
    }
  }

  lemma {:induction false} KnownIsGood(cfg: Config, given: set<Value>)
    requires Known(cfg, given)
    ensures GoodConfig(cfg)
  {
    hide GoodOpts;
    assert forall i :: 0 <= i < |cfg.sections| ==> KnownOpts(cfg.sections[i].1, cfg.noValue, given);
  }

  lemma {:induction false} FreshIsKnown(noValue: bool, interp: bool, given: set<Value>)
    ensures Known(Config([], [], noValue, interp), given)
  {
  }

  /**
    Round trip: whatever reads, section additions, assignments and removals made a configuration, its
    text, with either delimiter, reads into a fresh one with the same flags, giving the same sections and
    the same option names in the same order; and every value that was not handed to `set` comes back identical.
  */
  lemma {:induction false} EveryConfigurationReadsBack(ops: seq<Op>, noValue: bool, interp: bool,
                                                       admits: string -> bool, spaced: bool)
    ensures var blank := Config([], [], noValue, interp);
            var cfg := ApplyAll(blank, ops, admits);
            && Read(blank, Write(cfg, spaced)) == Ok(Normalized(cfg))
            && (forall i :: 0 <= i < |cfg.defaults| ==> Traced(cfg.defaults[i].1, noValue, Given(ops)))
            && (forall i, j :: 0 <= i < |cfg.sections| && 0 <= j < |cfg.sections[i].1| ==>
                  Traced(cfg.sections[i].1[j].1, noValue, Given(ops)))
  {
    hide Read, Write, Normalized, ApplyAll, GoodOpts, Traced;
    var blank, given := Config([], [], noValue, interp), Given(ops);
    FreshIsKnown(noValue, interp, given);
    AllKeep(blank, ops, admits, given);
    var cfg := ApplyAll(blank, ops, admits);
    KnownIsGood(cfg, given);
    ReadsBack(cfg, spaced);
    assert forall i :: 0 <= i < |cfg.sections| ==> KnownOpts(cfg.sections[i].1, noValue, given);
  }

  lemma {:induction false} NoDefaultSection(cfg: Config)
    requires forall i :: 0 <= i < |cfg.sections| ==> cfg.sections[i].0 != DEFAULT
    ensures !Has(cfg.sections, DEFAULT)
  {
  }

  /**
    On every configuration the operations can produce: a value that `set` takes is then read by `get`, as its
    substitution, exactly when none of its references has an escape right behind it, all of them resolve, and the
    size allows.
  */
  lemma {:induction false} SetThenGet(ops: seq<Op>, noValue: bool, section: string, option: string, value: string)
    ensures var cfg := ApplyAll(Config([], [], noValue, true), ops, I.Admits);
            Set(cfg, section, option, Some(value), I.Admits).Ok? ==>
              var after := Set(cfg, section, option, Some(value), I.Admits).value;
              var view, got := K.Visible(after, section), K.Got(after, section, option);
              && (I.Subst(view, value, 0, 1).Done? <==> I.Unbridged(value, 0) && I.Resolves(view, value, 0, 1))
              && got.Ok? && got.value.Some?
              && (got.value.value.Done? <==>
                    I.Unbridged(value, 0) && I.Resolves(view, value, 0, 1) &&
                    I.Peak(view, value, 0, 1, "") <= I.MAX_OUTPUT)
              && (got.value.value.Done? ==> got.value.value == I.Subst(view, value, 0, 1))
  {
    hide ApplyAll, Set, K.Visible, K.Got, I.Unbridged, I.Resolves, I.Peak, I.Subst, Normalized;
    var blank, given := Config([], [], noValue, true), Given(ops);
    FreshIsKnown(noValue, true, given);
    AllKeep(blank, ops, I.Admits, given);
    var cfg := ApplyAll(blank, ops, I.Admits);
    KnownIsGood(cfg, given);
    NoDefaultSection(cfg);
    if Set(cfg, section, option, Some(value), I.Admits).Ok? {
      K.SetThenGot(cfg, section, option, value);
    }
  }
}
