/** The text a configuration is written as, line by line. */
module IniWritten {
  import opened Bytes
  import opened IniText
  import opened IniModel
  import opened IniRead
  import R = IniRoundTrip

  /** Lines, each with its line break. */
  function Ended(ls: seq<string>): string {
    if ls == [] then "" else Ended(ls[..|ls| - 1]) + ls[|ls| - 1] + "\n"
  }

  /** The lines after the first, each behind a tab. */
  function Tabbed(first: string, more: seq<string>): (r: seq<string>)
    ensures r != []
  {
    if more == [] then [first] else Tabbed(first, more[..|more| - 1]) + ["\t" + more[|more| - 1]]
  }

  /** A value's lines behind its name: the first where it stands, the others indented. */
  function Under(head: string, ls: seq<string>): seq<string>
    requires ls != []
  {
    Tabbed(head + ls[0], ls[1..])
  }

  /** An option on a line, its value's further lines indented; an option without a value is its name, or `None`. */
  function OptionLines(key: string, value: Value, spaced: bool, noValue: bool): seq<string> {
    var head := key + if spaced then " = " else "=";
    match value
    case Some(v) => Under(head, SplitLines(v))
    case None => [if noValue then key else head + "None"]
  }

  function OptsLines(opts: Opts, spaced: bool, noValue: bool): seq<string> {
    if opts == [] then []
    else
      var (key, value) := opts[|opts| - 1];
      OptsLines(opts[..|opts| - 1], spaced, noValue) + OptionLines(key, value, spaced, noValue)
  }

  /** A header, the options in order, and an empty line. */
  function SectionLines(name: string, opts: Opts, spaced: bool, noValue: bool): seq<string> {
    ["[" + name + "]"] + OptsLines(opts, spaced, noValue) + [""]
  }

  function SectionsLines(sections: Assoc<Opts>, spaced: bool, noValue: bool): seq<string> {
    if sections == [] then []
    else
      var (name, opts) := sections[|sections| - 1];
      SectionsLines(sections[..|sections| - 1], spaced, noValue) + SectionLines(name, opts, spaced, noValue)
  }

  /** `DEFAULT` first, unless it has no options, and the sections in order. */
  function WrittenLines(cfg: Config, spaced: bool): seq<string> {
    (if cfg.defaults == [] then [] else SectionLines("DEFAULT", cfg.defaults, spaced, cfg.noValue))
    + SectionsLines(cfg.sections, spaced, cfg.noValue)
  }

  // ----- the text is those lines

  lemma {:induction false} EndedOne(line: string)
    ensures Ended([line]) == line + "\n"
  {
    assert [line][..0] == [];
    Empties(line);
  }

  lemma {:induction false} EndedBoth(a: seq<string>, b: seq<string>)
    ensures Ended(a + b) == Ended(a) + Ended(b)
    decreases |b|
  {
    if b == [] {
      Empties(a);
      Empties(Ended(a));
    } else {
      var front := b[..|b| - 1];
      EndedBoth(a, front);
      assert (a + b)[..|a + b| - 1] == a + front;
      AppendAppend(Ended(a), Ended(front), b[|b| - 1]);
      AppendAppend(Ended(a), Ended(front) + b[|b| - 1], "\n");
    }
  }

  lemma {:induction false} ValueLines(head: string, v: string)
    ensures Ended(Under(head, SplitLines(v))) == head + Indented(v) + "\n"
    decreases |v|
  {
    hide Indented, Ended, Under;
    match FindLast(v, '\n', |v|)
    case None =>
      R.IndentedPlain(v);
      UnderOne(head, v);
    case Some(i) =>
      var front, l := v[..i], v[i + 1..];
      assert v == front + "\n" + l;
      ValueLines(head, front);
      R.IndentedSnoc(front, l);
      UnderSnoc(head, SplitLines(front), l);
      hide SplitLines;
      Regrouped(head, Indented(front), l);
  }

  lemma {:induction false} UnderOne(head: string, v: string)
    ensures Ended(Under(head, [v])) == head + v + "\n"
  {
    hide Ended;
    assert [v][1..] == [];
    EndedOne(head + v);
  }

  lemma {:induction false} UnderSnoc(head: string, ls: seq<string>, l: string)
    requires ls != []
    ensures Ended(Under(head, ls + [l])) == Ended(Under(head, ls)) + ("\t" + l + "\n")
  {
    hide Ended, Tabbed;
    assert (ls + [l])[0] == ls[0] && (ls + [l])[1..] == ls[1..] + [l];
    TabbedSnoc(head + ls[0], ls[1..], l);
    EndedBoth(Tabbed(head + ls[0], ls[1..]), ["\t" + l]);
    EndedOne("\t" + l);
  }

  lemma {:induction false} Regrouped(head: string, text: string, l: string)
    ensures head + text + "\n" + ("\t" + l + "\n") == head + (text + "\n\t" + l) + "\n"
  {
    assert "\n" + "\t" == "\n\t";
  }

  lemma {:induction false} TabbedSnoc(first: string, more: seq<string>, l: string)
    ensures Tabbed(first, more + [l]) == Tabbed(first, more) + ["\t" + l]
  {
    assert (more + [l])[..|more|] == more;
  }

  lemma {:induction false} OptionIs(key: string, value: Value, spaced: bool, noValue: bool)
    ensures OptionText(key, value, spaced, noValue) == Ended(OptionLines(key, value, spaced, noValue))
  {
    hide Ended, Indented, SplitLines;
    var head := key + if spaced then " = " else "=";
    match value
    case Some(v) => ValueLines(head, v);
    case None => EndedOne(if noValue then key else head + "None");
  }

  lemma {:induction false} OptsAre(opts: Opts, spaced: bool, noValue: bool)
    ensures OptsText(opts, spaced, noValue) == Ended(OptsLines(opts, spaced, noValue))
    decreases |opts|
  {
    hide OptionText, OptionLines;
    if opts != [] {
      var front := opts[..|opts| - 1];
      var (key, value) := opts[|opts| - 1];
      OptsAre(front, spaced, noValue);
      OptionIs(key, value, spaced, noValue);
      EndedBoth(OptsLines(front, spaced, noValue), OptionLines(key, value, spaced, noValue));
    }
  }

  lemma {:induction false} SectionIs(name: string, opts: Opts, spaced: bool, noValue: bool)
    ensures SectionText(name, opts, spaced, noValue) == Ended(SectionLines(name, opts, spaced, noValue))
  {
    hide OptsText, OptsLines, Ended;
    var header, body := "[" + name + "]", OptsLines(opts, spaced, noValue);
    OptsAre(opts, spaced, noValue);
    EndedBoth([header] + body, [""]);
    EndedBoth([header], body);
    EndedOne(header);
    EndedOne("");
    assert header + "\n" == "[" + name + "]\n";
  }

  lemma {:induction false} SectionsAre(sections: Assoc<Opts>, spaced: bool, noValue: bool)
    ensures SectionsText(sections, spaced, noValue) == Ended(SectionsLines(sections, spaced, noValue))
    decreases |sections|
  {
    hide SectionText, SectionLines;
    if sections != [] {
      var front := sections[..|sections| - 1];
      var (name, opts) := sections[|sections| - 1];
      SectionsAre(front, spaced, noValue);
      SectionIs(name, opts, spaced, noValue);
      EndedBoth(SectionsLines(front, spaced, noValue), SectionLines(name, opts, spaced, noValue));
    }
  }

  /** A configuration is written as exactly these lines. */
  lemma {:induction false} WritesLines(cfg: Config, spaced: bool)
    ensures Write(cfg, spaced) == Ended(WrittenLines(cfg, spaced))
  {
    hide SectionText, SectionLines, SectionsText, SectionsLines;
    SectionsAre(cfg.sections, spaced, cfg.noValue);
    if cfg.defaults == [] {
      Empties(Ended(SectionsLines(cfg.sections, spaced, cfg.noValue)));
      Empties(SectionsLines(cfg.sections, spaced, cfg.noValue));
    } else {
      SectionIs("DEFAULT", cfg.defaults, spaced, cfg.noValue);
      EndedBoth(SectionLines("DEFAULT", cfg.defaults, spaced, cfg.noValue),
                SectionsLines(cfg.sections, spaced, cfg.noValue));
    }
  }
}
