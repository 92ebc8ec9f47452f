/**
  Configuration files as they are written by hand: sections of options, with comments, blank lines, indentation
  and values over several lines. What such a file means is defined on its structure; the reader is proved to
  find it in the text.
*/
module IniGrammar {
  import opened Bytes
  import opened IniText
  import opened IniModel
  import opened IniRead
  import opened IniRoundTrip

  /** White space within a line. */
  predicate Pad(s: string) {
    AllSpace(s) && NoBreak(s)
  }

  /** What may stand between options, or between the lines of a value. */
  datatype Tail =
    | Blank(pad: string)
    | Comment(indent: string, mark: char, text: string)
    | More(indent: string, text: string, pad: string)

  /** An option: its first line, with a value or without one, and the lines behind it. */
  datatype Entry = Entry(indent: string, key: string, gap: string, delim: char, value: Option<string>,
                         tails: seq<Tail>)

  /** A section: its header line, what precedes its first option, and its options. */
  datatype Section = Section(indent: string, name: string, junk: string, lead: seq<Tail>, entries: seq<Entry>)

  // ----- the text

  function TailText(t: Tail): string {
    match t
    case Blank(pad) => pad + "\n"
    case Comment(indent, mark, text) => indent + [mark] + text + "\n"
    case More(indent, text, pad) => indent + text + pad + "\n"
  }

  function TailsText(ts: seq<Tail>): string {
    if ts == [] then "" else TailText(ts[0]) + TailsText(ts[1..])
  }

  function FirstText(e: Entry): string {
    match e.value
    case Some(v) => e.indent + e.key + e.gap + [e.delim] + v + "\n"
    case None => e.indent + e.key + e.gap + "\n"
  }

  function EntryText(e: Entry): string {
    FirstText(e) + TailsText(e.tails)
  }

  function EntriesText(es: seq<Entry>): string {
    if es == [] then "" else EntryText(es[0]) + EntriesText(es[1..])
  }

  function HeadText(s: Section): string {
    s.indent + "[" + s.name + "]" + s.junk + "\n"
  }

  function SectionText(s: Section): string {
    HeadText(s) + (TailsText(s.lead) + EntriesText(s.entries))
  }

  function DocumentText(doc: seq<Section>): string {
    if doc == [] then "" else SectionText(doc[0]) + DocumentText(doc[1..])
  }

  // ----- the meaning

  function TailLine(t: Tail): seq<string> {
    match t
    case Blank(_) => [""]
    case Comment(_, _, _) => []
    case More(_, text, _) => [text]
  }

  function TailLines(ts: seq<Tail>): seq<string> {
    if ts == [] then [] else TailLine(ts[0]) + TailLines(ts[1..])
  }

  /** A value is its lines, stripped; a comment is none of them. */
  function Meaning(e: Entry): (string, Acc) {
    (OptionXform(e.key),
     match e.value case Some(v) => Some([Strip(v)] + TailLines(e.tails)) case None => None)
  }

  function Meanings(es: seq<Entry>): Assoc<Acc> {
    if es == [] then [] else [Meaning(es[0])] + Meanings(es[1..])
  }

  /** The options of the section called `DEFAULT`. */
  function DefaultOf(doc: seq<Section>): Assoc<Acc> {
    if doc == [] then []
    else if doc[0].name == "DEFAULT" then Meanings(doc[0].entries)
    else DefaultOf(doc[1..])
  }

  /** The other sections. */
  function SectionsOf(doc: seq<Section>): Assoc<Assoc<Acc>> {
    if doc == [] then []
    else (if doc[0].name == "DEFAULT" then [] else [(doc[0].name, Meanings(doc[0].entries))]) + SectionsOf(doc[1..])
  }

  // ----- what is well written

  predicate GoodTail(t: Tail, over: Option<nat>) {
    match t
    case Blank(pad) => Pad(pad)
    case Comment(indent, mark, text) => Pad(indent) && (mark == '#' || mark == ';') && NoBreak(text)
    case More(indent, text, pad) =>
      && over.Some? && Pad(indent) && |indent| > over.value
      && text != "" && Stripped(text) && NoBreak(text) && text[0] != '#' && text[0] != ';' && Pad(pad)
  }

  predicate GoodTails(ts: seq<Tail>, over: Option<nat>) {
    forall i :: 0 <= i < |ts| ==> GoodTail(ts[i], over)
  }

  /** An option's name: some text without a delimiter that does not look like a comment or a header. */
  predicate PlainKey(key: string) {
    && key != "" && Stripped(key) && NoBreak(key) && key[0] != '#' && key[0] != ';' && key[0] != '['
    && forall i :: 0 <= i < |key| ==> key[i] != '=' && key[i] != ':'
  }

  /** Values continue on deeper lines; a name alone is an option only where that is allowed, and is not continued. */
  predicate GoodEntry(e: Entry, noValue: bool) {
    && Pad(e.indent) && PlainKey(e.key) && Pad(e.gap)
    && match e.value
       case Some(v) => (e.delim == '=' || e.delim == ':') && NoBreak(v) && GoodTails(e.tails, Some(|e.indent|))
       case None => noValue && GoodTails(e.tails, None)
  }

  /** No option stands deeper than the one before it, or it would continue it. */
  predicate GoodEntries(es: seq<Entry>, ceiling: Option<nat>, noValue: bool) {
    es == [] ||
    (&& GoodEntry(es[0], noValue) && (ceiling.Some? ==> |es[0].indent| <= ceiling.value)
     && GoodEntries(es[1..], Some(|es[0].indent|), noValue))
  }

  predicate KeysDiffer(es: seq<Entry>) {
    forall i, j :: 0 <= i < j < |es| ==> OptionXform(es[i].key) != OptionXform(es[j].key)
  }

  predicate GoodSection(s: Section, ceiling: Option<nat>, noValue: bool) {
    && Pad(s.indent) && (ceiling.Some? ==> |s.indent| <= ceiling.value)
    && s.name != "" && NoBreak(s.name) && NoBreak(s.junk) && NoBracket(s.junk, 0)
    && GoodTails(s.lead, None) && GoodEntries(s.entries, None, noValue) && KeysDiffer(s.entries)
  }

  function CeilingOf(s: Section): Option<nat> {
    if s.entries == [] then None else Some(|s.entries[|s.entries| - 1].indent|)
  }

  predicate GoodSections(doc: seq<Section>, ceiling: Option<nat>, noValue: bool) {
    doc == [] || (GoodSection(doc[0], ceiling, noValue) && GoodSections(doc[1..], CeilingOf(doc[0]), noValue))
  }

  predicate NamesDiffer(doc: seq<Section>) {
    forall i, j :: 0 <= i < j < |doc| ==> doc[i].name != doc[j].name
  }

  predicate GoodDocument(doc: seq<Section>, noValue: bool) {
    GoodSections(doc, None, noValue) && NamesDiffer(doc)
  }

  // ----- single lines

  lemma {:induction false} PadMore(a: string)
    requires Pad(a)
    ensures AllSpace(a) && AllSpace(a + "\n") && NoBreak(a)
  {
  }

  /** A line of white space, some text, and white space. */
  lemma {:induction false} LineParts(a: string, m: string, b: string)
    requires Pad(a) && Stripped(m) && NoBreak(m) && Pad(b)
    ensures var line := a + m + b + "\n";
            && IsLine(line) && Strip(line) == m && (m != "" ==> SkipSpaces(line, 0) == |a|)
  {
    var line := a + m + b + "\n";
    PadMore(a);
    PadMore(b);
    AppendAppend(a + m, b, "\n");
    StripSurrounded(a, m, b + "\n");
    hide Strip, SkipSpaces, IsSpace;
    assert forall i :: 0 <= i < |line| - 1 ==> line[i] in a || line[i] in m || line[i] in b;
    assert forall i :: 0 <= i < |line| - 1 ==> line[i] != '\n';
  }

  lemma {:induction false} BlankReads(r: Reading, pad: string, noValue: bool)
    requires Pad(pad)
    ensures IsLine(pad + "\n")
    ensures ReadLine(r, pad + "\n", noValue) == Ok(match PushLine(r, "") case Some(more) => more case None => r)
  {
    hide PushLine, Strip;
    Empties(pad);
    LineParts(pad, "", "");
    assert pad + "" + "" + "\n" == pad + "\n";
  }

  lemma {:induction false} SkipsPad(a: string, m: string, rest: string)
    requires AllSpace(a) && m != "" && !IsSpace(m[0])
    ensures SkipSpaces(a + (m + rest), 0) == |a|
  {
    assert (m + rest)[0] == m[0];
    SkipsAll(a, m + rest);
  }

  /** A line that starts with some text: only its end is stripped. */
  lemma {:induction false} StartedLine(a: string, m: string, rest: string) returns (kept: string, b: string)
    requires Pad(a) && m != "" && Stripped(m) && NoBreak(m) && NoBreak(rest)
    ensures var line := a + (m + (rest + "\n"));
            && IsLine(line) && Strip(line) == m + kept && SkipSpaces(line, 0) == |a|
            && rest + "\n" == kept + b && AllSpace(b) && Strip(rest + "\n") == Strip(kept)
  {
    PadMore(a);
    assert AllSpace("");
    hide AllSpace, Strip;
    kept, b := StripEnd(m, rest + "\n");
    Empties(a + (m + (rest + "\n")));
    StripIgnores(a, m + (rest + "\n"), "");
    SkipsPad(a, m, rest + "\n");
    OneLine(a, m, rest);
  }

  lemma {:induction false} OneLine(a: string, m: string, rest: string)
    requires NoBreak(a) && NoBreak(m) && NoBreak(rest)
    ensures IsLine(a + (m + (rest + "\n")))
  {
    var line := a + (m + (rest + "\n"));
    assert line == (a + m + rest) + "\n";
    assert NoBreak(a + m + rest);
  }

  /** A comment is a line whose first character that is not white space is a mark, whatever stands behind it. */
  lemma {:induction false} CommentReads(r: Reading, indent: string, mark: char, text: string, noValue: bool)
    requires Pad(indent) && (mark == '#' || mark == ';') && NoBreak(text)
    ensures IsLine(indent + [mark] + text + "\n") && ReadLine(r, indent + [mark] + text + "\n", noValue) == Ok(r)
  {
    hide Strip, PushLine, SkipSpaces;
    assert !IsSpace(mark) && Stripped([mark]);
    var kept, b := StartedLine(indent, [mark], text);
    assert indent + [mark] + text + "\n" == indent + ([mark] + (text + "\n"));
  }

  /** Whether a line this deep continues the option before it. */
  predicate Deeper(r: Reading, n: nat) {
    r.cur != NoSection && r.opt.Some? && n > r.indent
  }

  lemma {:induction false} MoreReads(r: Reading, indent: string, text: string, pad: string, noValue: bool)
    requires GoodTail(More(indent, text, pad), Some(r.indent)) && Deeper(r, |indent|) && PushLine(r, text).Some?
    ensures IsLine(indent + text + pad + "\n")
    ensures ReadLine(r, indent + text + pad + "\n", noValue) == Ok(PushLine(r, text).value)
  {
    hide PushLine, Strip, SkipSpaces, SectionHeader, ReadOption, OpenSection;
    LineParts(indent, text, pad);
  }

  lemma {:induction false} HeadReads(r: Reading, s: Section, noValue: bool)
    requires Pad(s.indent) && s.name != "" && NoBreak(s.name) && NoBreak(s.junk) && NoBracket(s.junk, 0)
    requires !Deeper(r, |s.indent|)
    ensures IsLine(HeadText(s)) && ReadLine(r, HeadText(s), noValue) == OpenSection(r, s.name)
  {
    hide PushLine, Strip, SkipSpaces, OpenSection, ReadOption, FindLast;
    var m := "[" + s.name + "]";
    assert m[0] == '[' && m[|m| - 1] == ']' && Stripped(m) && NoBreak(m);
    var kept, b := StartedLine(s.indent, m, s.junk);
    assert HeadText(s) == s.indent + (m + (s.junk + "\n"));
    HeaderFound(s.name, s.junk, kept, b);
  }

  lemma {:induction false} HeaderFound(name: string, junk: string, kept: string, b: string)
    requires name != "" && NoBracket(junk, 0) && junk + "\n" == kept + b
    ensures SectionHeader("[" + name + "]" + kept) == Some(name)
  {
    var clean, close := "[" + name + "]" + kept, |name| + 1;
    assert clean[0] == '[' && clean[close] == ']';
    assert forall i :: 0 <= i < |kept| ==> kept[i] == (junk + "\n")[i];
    assert forall i :: close < i < |clean| ==> clean[i] == kept[i - close - 1];
    assert FindLast(clean, ']', |clean|) == Some(close);
    assert clean[1..close] == name;
  }

  /** The first delimiter is the one behind the name, and splits it from the value. */
  lemma {:induction false} SplitsThere(key: string, gap: string, delim: char, v: string, kept: string, b: string)
    requires PlainKey(key) && Pad(gap) && (delim == '=' || delim == ':')
    requires gap + [delim] + v + "\n" == kept + b && AllSpace(b)
    ensures |gap| < |kept|
    ensures var clean, p := key + kept, |key| + |gap|;
            && FirstDelimiter(clean, 0) == Some(p) && clean[..p] == key + gap && clean[p + 1..] + b == v + "\n"
  {
    var rest, n := gap + [delim] + v + "\n", |gap|;
    assert rest[n] == delim && !IsSpace(delim);
    assert forall k :: |kept| <= k < |rest| ==> rest[k] == b[k - |kept|];
    assert n < |kept|;
    assert rest == gap + [delim] + (v + "\n");
    Halves(gap + [delim], v + "\n");
    DropAppend(kept, b, n + 1);
    assert kept[..n] == rest[..n] == gap && kept[n] == rest[n];
    DelimitedAt(key, gap, kept, delim);
  }

  lemma {:induction false} DelimitedAt(key: string, gap: string, kept: string, delim: char)
    requires PlainKey(key) && Pad(gap) && (delim == '=' || delim == ':')
    requires |gap| < |kept| && kept[..|gap|] == gap && kept[|gap|] == delim
    ensures var clean, p := key + kept, |key| + |gap|;
            && FirstDelimiter(clean, 0) == Some(p) && clean[..p] == key + gap && clean[p + 1..] == kept[|gap| + 1..]
  {
    var clean, n, p := key + kept, |gap|, |key| + |gap|;
    assert clean[p] == kept[n] == delim;
    assert forall k :: 0 <= k < n ==> kept[k] == kept[..n][k] == gap[k];
    assert clean[..p] == key + gap;
    assert forall k :: 0 <= k < p ==> clean[k] == (key + gap)[k];
    assert forall k :: 0 <= k < n ==> IsSpace(gap[k]);
    assert forall k :: 0 <= k < p ==> !IsDelimiter((key + gap)[k]);
  }

  lemma {:induction false} KeyOf(key: string, gap: string)
    requires key != "" && Stripped(key) && AllSpace(gap)
    ensures Rstrip(key + gap) == key
  {
    DropsAll(key, gap, 0);
    Halves(key, gap);
  }

  lemma {:induction false} SameStrip(x: string, b: string, v: string)
    requires AllSpace(b) && x + b == v + "\n"
    ensures Strip(x) == Strip(v)
  {
    Blanks();
    hide Strip, AllSpace;
    Empties(x + b);
    Empties(v + "\n");
    AppendAppend("", x, b);
    AppendAppend("", v, "\n");
    StripIgnores("", x, b);
    StripIgnores("", v, "\n");
    Empties(x);
    Empties(v);
  }

  lemma {:induction false} ValueSplits(e: Entry, noValue: bool)
    requires GoodEntry(e, noValue) && e.value.Some?
    ensures var line := FirstText(e);
            && IsLine(line) && SkipSpaces(line, 0) == |e.indent|
            && ReadsAs(Strip(line), e.key, Some(Strip(e.value.value)), noValue)
  {
    hide Strip, SkipSpaces, Rstrip, FirstDelimiter, GoodTails, AllSpace;
    var v := e.value.value;
    var rest := e.gap + [e.delim] + v;
    assert NoBreak(rest);
    assert FirstText(e) == e.indent + (e.key + (rest + "\n"));
    var kept, b := StartedLine(e.indent, e.key, rest);
    SplitsThere(e.key, e.gap, e.delim, v, kept, b);
    KeyOf(e.key, e.gap);
    SameStrip((e.key + kept)[|e.key| + |e.gap| + 1..], b, v);
    assert (e.key + kept)[0] == e.key[0];
  }

  lemma {:induction false} BareSplits(e: Entry, noValue: bool)
    requires GoodEntry(e, noValue) && e.value.None?
    ensures var line := FirstText(e);
            IsLine(line) && SkipSpaces(line, 0) == |e.indent| && ReadsAs(Strip(line), e.key, None, noValue)
  {
    hide Strip, SkipSpaces, Rstrip, GoodTails;
    LineParts(e.indent, e.key, e.gap);
    StripOfStripped(e.key);
    assert FirstDelimiter(e.key, 0).None?;
  }

  /** The reading with these options in the current section, standing at that key on a line this deep. */
  function At(r: Reading, opts: Assoc<Acc>, key: Option<string>, n: nat): Reading {
    WithOpts(r, opts).(opt := key, indent := n)
  }

  function StrippedAcc(v: Option<string>): Acc {
    match v
    case Some(text) => Some([Strip(text)])
    case None => None
  }

  lemma {:induction false} FirstReads(r: Reading, opts: Assoc<Acc>, e: Entry, noValue: bool)
    requires CurOpts(r) == Some(opts) && GoodEntry(e, noValue) && !Deeper(r, |e.indent|)
    requires !Has(opts, OptionXform(e.key))
    ensures IsLine(FirstText(e))
    ensures var key := OptionXform(e.key);
            ReadLine(r, FirstText(e), noValue) == Ok(At(r, opts + [(key, StrippedAcc(e.value))], Some(key), |e.indent|))
  {
    hide Strip, SkipSpaces, SectionHeader, ParseOption, FirstText, PushLine, GoodTails, Pad;
    if e.value.Some? {
      ValueSplits(e, noValue);
    } else {
      BareSplits(e, noValue);
    }
    assert CurOpts(r.(indent := |e.indent|)) == CurOpts(r);
    assert |OptionXform(e.key)| > 0;
  }

  // ----- line by line

  lemma {:induction false} AtAt(r: Reading, opts: Assoc<Acc>, key: Option<string>, n: nat)
    requires CurOpts(r).Some?
    ensures CurOpts(At(r, opts, key, n)) == Some(opts) && At(r, opts, key, n).cur == r.cur != NoSection
    ensures forall more, next, m :: At(At(r, opts, key, n), more, next, m) == At(r, more, next, m)
  {
  }

  lemma {:induction false} PushesAt(r: Reading, opts: Assoc<Acc>, key: string, lines: seq<string>, line: string, n: nat)
    requires CurOpts(r).Some? && !Has(opts, key)
    ensures PushLine(At(r, opts + [(key, Some(lines))], Some(key), n), line) ==
            Some(At(r, opts + [(key, Some(lines + [line]))], Some(key), n))
  {
    var all := opts + [(key, Some(lines))];
    var st, more: Acc := At(r, all, Some(key), n), Some(lines + [line]);
    AtAt(r, all, Some(key), n);
    assert all[|opts|] == (key, Some(lines));
    assert forall i :: 0 <= i < |opts| ==> all[i].0 != key;
    assert Find(all, key, 0) == Some(|opts|);
    assert Put(all, key, more) == opts + [(key, more)];
    assert WithOpts(st, opts + [(key, more)]) == At(st, opts + [(key, more)], Some(key), n);
  }

  /** Blank lines and comments where no value is open. */
  lemma {:induction false} QuietRead(s: string, r: Reading, ts: seq<Tail>, noValue: bool)
    requires Reached(s, r, noValue) && GoodTails(ts, None) && PushLine(r, "").None?
    ensures Reached(s + TailsText(ts), r, noValue)
    decreases |ts|
  {
    hide Reached, PushLine, ReadLine;
    if ts == [] {
      Empties(s);
    } else {
      assert GoodTail(ts[0], None) && GoodTails(ts[1..], None);
      match ts[0] {
        case Blank(pad) => BlankReads(r, pad, noValue);
        case Comment(indent, mark, text) => CommentReads(r, indent, mark, text, noValue);
      }
      Next(s, r, TailText(ts[0]), noValue);
      AppendAppend(s, TailText(ts[0]), TailsText(ts[1..]));
      QuietRead(s + TailText(ts[0]), r, ts[1..], noValue);
    }
  }

  lemma {:induction false} TailReads(s: string, r: Reading, opts: Assoc<Acc>, key: string, lines: seq<string>, n: nat,
                                     t: Tail, noValue: bool)
    requires CurOpts(r).Some? && !Has(opts, key) && GoodTail(t, Some(n))
    requires Reached(s, At(r, opts + [(key, Some(lines))], Some(key), n), noValue)
    ensures Reached(s + TailText(t), At(r, opts + [(key, Some(lines + TailLine(t)))], Some(key), n), noValue)
  {
    hide Reached, PushLine, ReadLine;
    var st := At(r, opts + [(key, Some(lines))], Some(key), n);
    AtAt(r, opts + [(key, Some(lines))], Some(key), n);
    match t {
      case Blank(pad) =>
        BlankReads(st, pad, noValue);
        PushesAt(r, opts, key, lines, "", n);
      case Comment(indent, mark, text) =>
        CommentReads(st, indent, mark, text, noValue);
        Empties(lines);
      case More(indent, text, pad) =>
        PushesAt(r, opts, key, lines, text, n);
        MoreReads(st, indent, text, pad, noValue);
    }
    Next(s, st, TailText(t), noValue);
  }

  lemma {:induction false} TailsRead(s: string, r: Reading, opts: Assoc<Acc>, key: string, lines: seq<string>, n: nat,
                                     ts: seq<Tail>, noValue: bool)
    requires CurOpts(r).Some? && !Has(opts, key) && GoodTails(ts, Some(n))
    requires Reached(s, At(r, opts + [(key, Some(lines))], Some(key), n), noValue)
    ensures Reached(s + TailsText(ts), At(r, opts + [(key, Some(lines + TailLines(ts)))], Some(key), n), noValue)
    decreases |ts|
  {
    hide Reached, At, TailText, Has;
    if ts == [] {
      Empties(s);
      Empties(lines);
    } else {
      assert GoodTail(ts[0], Some(n)) && GoodTails(ts[1..], Some(n));
      TailReads(s, r, opts, key, lines, n, ts[0], noValue);
      AppendAppend(s, TailText(ts[0]), TailsText(ts[1..]));
      AppendAppend(lines, TailLine(ts[0]), TailLines(ts[1..]));
      TailsRead(s + TailText(ts[0]), r, opts, key, lines + TailLine(ts[0]), n, ts[1..], noValue);
    }
  }

  lemma {:induction false} PushesNoneAt(r: Reading, opts: Assoc<Acc>, key: string, n: nat)
    requires CurOpts(r).Some? && !Has(opts, key)
    ensures PushLine(At(r, opts + [(key, None)], Some(key), n), "").None?
  {
    var all := opts + [(key, None)];
    AtAt(r, all, Some(key), n);
    assert all[|opts|] == (key, None);
    assert forall i :: 0 <= i < |opts| ==> all[i].0 != key;
    assert Find(all, key, 0) == Some(|opts|);
  }

  /** One option with its lines. */
  lemma {:induction false} EntryReads(s: string, r: Reading, opts: Assoc<Acc>, e: Entry, noValue: bool)
    requires Reached(s, r, noValue) && CurOpts(r) == Some(opts) && GoodEntry(e, noValue) && !Deeper(r, |e.indent|)
    requires !Has(opts, OptionXform(e.key))
    ensures Reached(s + EntryText(e), At(r, opts + [Meaning(e)], Some(OptionXform(e.key)), |e.indent|), noValue)
  {
    hide Reached, At, FirstText, ReadLine, GoodTails, Has, PlainKey, TailsText, Strip;
    var key, n := OptionXform(e.key), |e.indent|;
    FirstReads(r, opts, e, noValue);
    Next(s, r, FirstText(e), noValue);
    AppendAppend(s, FirstText(e), TailsText(e.tails));
    if e.value.Some? {
      TailsRead(s + FirstText(e), r, opts, key, [Strip(e.value.value)], n, e.tails, noValue);
    } else {
      PushesNoneAt(r, opts, key, n);
      QuietRead(s + FirstText(e), At(r, opts + [(key, None)], Some(key), n), e.tails, noValue);
    }
  }

  lemma {:induction false} AtSame(r: Reading, opts: Assoc<Acc>)
    requires CurOpts(r) == Some(opts)
    ensures At(r, opts, r.opt, r.indent) == r
  {
    if r.cur.InNamed? {
      var i := r.cur.at;
      assert r.sections[i] == (r.sections[i].0, opts);
      assert r.sections[i := (r.sections[i].0, opts)] == r.sections;
    }
  }

  lemma {:induction false} HasMore<V>(opts: Assoc<V>, e: (string, V), k: string)
    ensures Has(opts + [e], k) <==> Has(opts, k) || e.0 == k
  {
    var all := opts + [e];
    assert all[|opts|] == e;
    assert forall i :: 0 <= i < |opts| ==> all[i] == opts[i];
  }

  lemma {:induction false} RestDiffer(es: seq<Entry>)
    requires es != [] && KeysDiffer(es)
    ensures KeysDiffer(es[1..]) && forall i :: 1 <= i < |es| ==> OptionXform(es[i].key) != OptionXform(es[0].key)
  {
    hide OptionXform;
  }

  /** The options of a section. */
  lemma {:induction false} EntriesRead(s: string, r: Reading, opts: Assoc<Acc>, es: seq<Entry>, ceiling: Option<nat>,
                                       noValue: bool) returns (key: Option<string>, n: nat)
    requires Reached(s, r, noValue) && CurOpts(r) == Some(opts)
    requires GoodEntries(es, ceiling, noValue) && KeysDiffer(es)
    requires r.opt.Some? ==> ceiling == Some(r.indent)
    requires forall i :: 0 <= i < |es| ==> !Has(opts, OptionXform(es[i].key))
    ensures Reached(s + EntriesText(es), At(r, opts + Meanings(es), key, n), noValue)
    ensures if es == [] then key == r.opt && n == r.indent
            else key == Some(OptionXform(es[|es| - 1].key)) && n == |es[|es| - 1].indent|
    decreases |es|
  {
    hide Reached, EntryText, GoodEntry, Has, OptionXform, KeysDiffer, WithOpts;
    if es == [] {
      key, n := r.opt, r.indent;
      Empties(s);
      Empties(opts);
      AtSame(r, opts);
    } else {
      var e, rest := es[0], es[1..];
      var m := Meaning(e);
      RestDiffer(es);
      EntryReads(s, r, opts, e, noValue);
      var st := At(r, opts + [m], Some(OptionXform(e.key)), |e.indent|);
      AtAt(r, opts + [m], Some(OptionXform(e.key)), |e.indent|);
      forall i | 0 <= i < |rest|
        ensures !Has(opts + [m], OptionXform(rest[i].key))
      {
        assert rest[i] == es[i + 1];
        HasMore(opts, m, OptionXform(rest[i].key));
      }
      AppendAppend(s, EntryText(e), EntriesText(rest));
      AppendAppend(opts, [m], Meanings(rest));
      key, n := EntriesRead(s + EntryText(e), st, opts + [m], rest, Some(|e.indent|), noValue);
    }
  }

  /** The reading just behind a header. */
  function Opening(r: Reading, name: string): Reading {
    if name == "DEFAULT" then r.(cur := InDefault, opt := None)
    else r.(sections := r.sections + [(name, [])], cur := InNamed(|r.sections|), opt := None)
  }

  /** One section, from its header to its last line. */
  lemma {:induction false} SectionReads(s: string, r: Reading, sec: Section, ceiling: Option<nat>, noValue: bool)
    returns (after: Reading)
    requires Reached(s, r, noValue) && GoodSection(sec, ceiling, noValue) && (r.opt.Some? ==> ceiling == Some(r.indent))
    requires if sec.name == "DEFAULT" then r.default == [] else !Has(r.sections, sec.name)
    ensures Reached(s + SectionText(sec), after, noValue) && after.faults == r.faults && EndsAt(after, sec)
    ensures var ms := Meanings(sec.entries);
            if sec.name == "DEFAULT" then after.default == ms && after.sections == r.sections
            else after.default == r.default && after.sections == r.sections + [(sec.name, ms)]
  {
    hide Reached, ReadLine, HeadText, TailsText, EntriesText, GoodEntries, GoodTails, Has, Meanings, KeysDiffer,
         PushLine, OptionXform;
    var open, ms := Opening(r, sec.name), Meanings(sec.entries);
    HeadReads(r, sec, noValue);
    OpensThere(r, sec.name);
    Next(s, r, HeadText(sec), noValue);
    var t := s + HeadText(sec);
    PushesNowhere(open);
    QuietRead(t, open, sec.lead, noValue);
    NothingHas();
    var key, n := EntriesRead(t + TailsText(sec.lead), open, [], sec.entries, None, noValue);
    Empties(ms);
    after := At(open, ms, key, n);
    AppendAppend(t, TailsText(sec.lead), EntriesText(sec.entries));
    AppendAppend(s, HeadText(sec), TailsText(sec.lead) + EntriesText(sec.entries));
    OpenedWith(r, sec.name, ms, key, n);
    AtAt(open, ms, key, n);
  }

  /** The reader stands behind the last option of this section. */
  predicate EndsAt(r: Reading, sec: Section) {
    && CurOpts(r) == Some(Meanings(sec.entries))
    && (if sec.entries == [] then r.opt.None?
        else var last := sec.entries[|sec.entries| - 1];
             r.opt == Some(OptionXform(last.key)) && r.indent == |last.indent|)
  }

  lemma {:induction false} NothingHas()
    ensures forall k :: !Has<Acc>([], k)
  {
  }

  lemma {:induction false} OpensThere(r: Reading, name: string)
    requires if name == "DEFAULT" then r.default == [] else !Has(r.sections, name)
    ensures OpenSection(r, name) == Ok(Opening(r, name)) && CurOpts(Opening(r, name)) == Some([])
  {
    hide Has;
  }

  lemma {:induction false} OpenedWith(r: Reading, name: string, ms: Assoc<Acc>, key: Option<string>, n: nat)
    ensures var after := At(Opening(r, name), ms, key, n);
            && after.faults == r.faults && after.opt == key && after.indent == n
            && if name == "DEFAULT" then after.default == ms && after.sections == r.sections
               else after.default == r.default && after.sections == r.sections + [(name, ms)]
  {
  }

  lemma {:induction false} RestNames(doc: seq<Section>)
    requires doc != [] && NamesDiffer(doc)
    ensures NamesDiffer(doc[1..]) && forall i :: 0 <= i < |doc| - 1 ==> doc[1..][i].name != doc[0].name
  {
  }

  lemma {:induction false} EndsUnder(r: Reading, sec: Section)
    requires EndsAt(r, sec)
    ensures r.opt.Some? ==> CeilingOf(sec) == Some(r.indent)
  {
  }

  predicate HasDefault(doc: seq<Section>) {
    doc != [] && (doc[0].name == "DEFAULT" || HasDefault(doc[1..]))
  }

  /** None of these sections has been met yet. */
  predicate Unmet(r: Reading, doc: seq<Section>) {
    forall i :: 0 <= i < |doc| ==> if doc[i].name == "DEFAULT" then r.default == [] else !Has(r.sections, doc[i].name)
  }

  lemma {:induction false} RestUnmet(r: Reading, after: Reading, doc: seq<Section>)
    requires doc != [] && NamesDiffer(doc) && Unmet(r, doc)
    requires var ms := Meanings(doc[0].entries);
             if doc[0].name == "DEFAULT" then after.sections == r.sections
             else after.default == r.default && after.sections == r.sections + [(doc[0].name, ms)]
    ensures Unmet(after, doc[1..]) && NamesDiffer(doc[1..])
  {
    hide Has, Meanings;
    var sec, rest := doc[0], doc[1..];
    RestNames(doc);
    forall i | 0 <= i < |rest|
      ensures if rest[i].name == "DEFAULT" then after.default == [] else !Has(after.sections, rest[i].name)
    {
      assert rest[i] == doc[i + 1];
      HasMore(r.sections, (sec.name, Meanings(sec.entries)), rest[i].name);
    }
  }

  lemma {:induction false} SectionsRead(s: string, r: Reading, doc: seq<Section>, ceiling: Option<nat>, noValue: bool)
    returns (after: Reading)
    requires Reached(s, r, noValue) && GoodSections(doc, ceiling, noValue) && NamesDiffer(doc) && Unmet(r, doc)
    requires r.opt.Some? ==> ceiling == Some(r.indent)
    ensures Reached(s + DocumentText(doc), after, noValue) && after.faults == r.faults
    ensures after.sections == r.sections + SectionsOf(doc)
    ensures after.default == if HasDefault(doc) then DefaultOf(doc) else r.default
    ensures if doc == [] then after == r else EndsAt(after, doc[|doc| - 1])
    decreases |doc|
  {
    hide Reached, SectionText, GoodSection, Has, Meanings, NamesDiffer, EndsAt, CeilingOf, Unmet, SectionsOf, DefaultOf,
         HasDefault;
    if doc == [] {
      after := r;
      Empties(s);
      NothingMore(r);
    } else {
      var sec, rest := doc[0], doc[1..];
      FirstUnmet(r, doc);
      var st := SectionReads(s, r, sec, ceiling, noValue);
      RestUnmet(r, st, doc);
      EndsUnder(st, sec);
      AppendAppend(s, SectionText(sec), DocumentText(rest));
      after := SectionsRead(s + SectionText(sec), st, rest, CeilingOf(sec), noValue);
      OneMore(r, st, after, doc);
    }
  }

  lemma {:induction false} FirstUnmet(r: Reading, doc: seq<Section>)
    requires Unmet(r, doc) && doc != []
    ensures if doc[0].name == "DEFAULT" then r.default == [] else !Has(r.sections, doc[0].name)
  {
    hide Has;
  }

  lemma {:induction false} NothingMore(r: Reading)
    ensures r.sections + SectionsOf([]) == r.sections && !HasDefault([])
  {
    Empties(r.sections);
  }

  /** What one section adds, and what the sections behind it add, is what they add together. */
  lemma {:induction false} OneMore(r: Reading, st: Reading, after: Reading, doc: seq<Section>)
    requires doc != [] && NamesDiffer(doc)
    requires var ms := Meanings(doc[0].entries);
             if doc[0].name == "DEFAULT" then st.default == ms && st.sections == r.sections
             else st.default == r.default && st.sections == r.sections + [(doc[0].name, ms)]
    requires after.sections == st.sections + SectionsOf(doc[1..])
    requires after.default == if HasDefault(doc[1..]) then DefaultOf(doc[1..]) else st.default
    ensures after.sections == r.sections + SectionsOf(doc)
    ensures after.default == if HasDefault(doc) then DefaultOf(doc) else r.default
  {
    hide Meanings, NamesDiffer;
    DefaultOnce(doc);
    SplitSections(r.sections, doc[0], doc[1..]);
    Empties(SectionsOf(doc[1..]));
    Empties(r.sections);
  }

  lemma {:induction false} DefaultOnce(doc: seq<Section>)
    requires NamesDiffer(doc) && doc != []
    ensures doc[0].name == "DEFAULT" ==> !HasDefault(doc[1..])
  {
    RestNames(doc);
    HasDefaultIs(doc[1..]);
  }

  lemma {:induction false} HasDefaultIs(doc: seq<Section>)
    ensures HasDefault(doc) ==> exists i :: 0 <= i < |doc| && doc[i].name == "DEFAULT"
    ensures !HasDefault(doc) ==> DefaultOf(doc) == []
    decreases |doc|
  {
    hide Meanings;
    if doc != [] {
      HasDefaultIs(doc[1..]);
      if doc[0].name != "DEFAULT" && HasDefault(doc) {
        var i :| 0 <= i < |doc[1..]| && doc[1..][i].name == "DEFAULT";
        assert doc[i + 1].name == "DEFAULT";
      }
    }
  }

  lemma {:induction false} SplitSections(before: Assoc<Assoc<Acc>>, sec: Section, rest: seq<Section>)
    ensures var own := if sec.name == "DEFAULT" then [] else [(sec.name, Meanings(sec.entries))];
            before + (own + SectionsOf(rest)) == before + own + SectionsOf(rest)
  {
    hide Meanings;
  }

  lemma {:induction false} NothingReached(noValue: bool)
    ensures Reached("", NOTHING_READ, noValue)
  {
  }

  /** Where reading a well-written document ends. */
  lemma {:induction false} DocumentEnds(doc: seq<Section>, noValue: bool) returns (r: Reading)
    requires GoodDocument(doc, noValue)
    ensures Reached(DocumentText(doc), r, noValue)
    ensures r.faults == 0 && r.default == DefaultOf(doc) && r.sections == SectionsOf(doc)
    ensures if doc == [] then r == NOTHING_READ else EndsAt(r, doc[|doc| - 1])
  {
    hide GoodSections, SectionsOf, DefaultOf, Reached, EndsAt;
    NothingReached(noValue);
    r := SectionsRead("", NOTHING_READ, doc, None, noValue);
    Empties(DocumentText(doc));
    Empties(SectionsOf(doc));
    HasDefaultIs(doc);
  }

  /** Every well-written document is read without an error, as what it means. */
  lemma {:induction false} DocumentReads(doc: seq<Section>, noValue: bool)
    requires GoodDocument(doc, noValue)
    ensures var r := ReadLines(NOTHING_READ, Lines(DocumentText(doc)), noValue);
            r.Ok? && r.value.faults == 0 && r.value.default == DefaultOf(doc) && r.value.sections == SectionsOf(doc)
  {
    hide GoodDocument, SectionsOf, DefaultOf, DocumentText;
    var r := DocumentEnds(doc, noValue);
  }

  // ----- what is refused

  lemma {:induction false} LinesIs(s: string)
    ensures Lines("") == []
    ensures s != "" ==>
              Lines(s) == match FindLast(s, '\n', |s| - 1)
                          case None => [s]
                          case Some(i) => Lines(s[..i + 1]) + [s[i + 1..]]
  {
    hide FindLast;
  }

  lemma {:induction false} LinesAppend(s: string, t: string)
    requires s == "" || s[|s| - 1] == '\n'
    ensures Lines(s + t) == Lines(s) + Lines(t)
    decreases |t|
  {
    hide Lines, FindLast;
    if s == "" {
      LinesIs(t);
      Empties(t);
      Empties(Lines(t));
    } else if t == "" {
      LinesIs(s);
      Empties(s);
      Empties(Lines(s));
    } else {
      LinesIs(t);
      LinesIs(s + t);
      LastBreak(s, t);
      match FindLast(t, '\n', |t| - 1)
      case None => Halves(s, t);
      case Some(i) =>
        CutBehind(s, t, i + 1);
        LinesAppend(s, t[..i + 1]);
        AppendAppend(Lines(s), Lines(t[..i + 1]), [t[i + 1..]]);
    }
  }

  lemma {:induction false} CutBehind(s: string, t: string, i: nat)
    requires i <= |t|
    ensures (s + t)[..|s| + i] == s + t[..i] && (s + t)[|s| + i..] == t[i..]
  {
  }

  lemma {:induction false} LastBreak(s: string, t: string)
    requires s != "" && s[|s| - 1] == '\n' && t != ""
    ensures FindLast(s + t, '\n', |s + t| - 1) ==
            (match FindLast(t, '\n', |t| - 1) case Some(i) => Some(|s| + i) case None => Some(|s| - 1))
  {
    var st := s + t;
    assert st[|s| - 1] == '\n';
    assert forall k :: |s| <= k < |st| ==> st[k] == t[k - |s|];
    match FindLast(t, '\n', |t| - 1)
    case None => assert forall k :: |s| <= k < |st| - 1 ==> st[k] != '\n';
    case Some(i) =>
      assert st[|s| + i] == '\n';
      assert forall k :: |s| + i < k < |st| - 1 ==> st[k] != '\n';
  }

  lemma {:induction false} ReadFrom(ls: seq<string>, more: seq<string>, noValue: bool)
    requires ReadLines(NOTHING_READ, ls, noValue).Err?
    ensures ReadLines(NOTHING_READ, ls + more, noValue) == ReadLines(NOTHING_READ, ls, noValue)
    decreases |more|
  {
    hide ReadLine;
    if more == [] {
      Empties(ls);
    } else {
      var front := more[..|more| - 1];
      assert (ls + more)[..|ls + more| - 1] == ls + front;
      ReadFrom(ls, front, noValue);
    }
  }

  /** A line that is an error refuses the text, whatever follows it. */
  lemma {:induction false} Refuses(s: string, r: Reading, line: string, more: string, noValue: bool)
    requires Reached(s, r, noValue) && IsLine(line) && ReadLine(r, line, noValue).Err?
    ensures ReadLines(NOTHING_READ, Lines(s + line + more), noValue) == Err(ReadLine(r, line, noValue).error)
  {
    hide ReadLine, Lines;
    LinesAppend(s + line, more);
    LinesSnoc(s, line);
    ReadsNext(Lines(s), line, noValue);
    ReadFrom(Lines(s + line), Lines(more), noValue);
    assert (s + line)[|s + line| - 1] == line[|line| - 1];
  }

  lemma {:induction false} NamesMet(doc: seq<Section>, i: nat)
    requires i < |doc| && doc[i].name != "DEFAULT"
    ensures Has(SectionsOf(doc), doc[i].name)
    decreases |doc|
  {
    hide Meanings;
    var all := SectionsOf(doc);
    if i == 0 {
      assert all[0].0 == doc[0].name;
    } else {
      NamesMet(doc[1..], i - 1);
      var j := Find(SectionsOf(doc[1..]), doc[i].name, 0).value;
      var n := |all| - |SectionsOf(doc[1..])|;
      assert all[n + j] == SectionsOf(doc[1..])[j];
    }
  }

  lemma {:induction false} KeysMet(es: seq<Entry>, i: nat)
    requires i < |es|
    ensures Has(Meanings(es), OptionXform(es[i].key))
    decreases |es|
  {
    hide OptionXform;
    var all := Meanings(es);
    if i == 0 {
      assert all[0].0 == OptionXform(es[0].key);
    } else {
      KeysMet(es[1..], i - 1);
      var j := Find(Meanings(es[1..]), OptionXform(es[i].key), 0).value;
      assert all[1 + j] == Meanings(es[1..])[j];
    }
  }

  /** Within one document a section must not come back, `DEFAULT` excepted. */
  lemma {:induction false} SectionTwice(doc: seq<Section>, i: nat, sec: Section, more: string, noValue: bool)
    requires GoodDocument(doc, noValue) && i < |doc| && sec.name == doc[i].name != "DEFAULT"
    requires GoodSection(sec, CeilingOf(doc[|doc| - 1]), noValue)
    ensures ReadLines(NOTHING_READ, Lines(DocumentText(doc) + HeadText(sec) + more), noValue) == Err(DuplicateSection)
  {
    hide GoodDocument, SectionsOf, DefaultOf, DocumentText, HeadText, Reached, ReadLine, Lines, ReadLines, GoodTails,
         GoodEntries, KeysDiffer;
    var r := DocumentEnds(doc, noValue);
    HeadReads(r, sec, noValue);
    NamesMet(doc, i);
    Refuses(DocumentText(doc), r, HeadText(sec), more, noValue);
  }

  lemma {:induction false} KeyTwice(r: Reading, opts: Assoc<Acc>, e: Entry, noValue: bool)
    requires CurOpts(r) == Some(opts) && GoodEntry(e, noValue) && !Deeper(r, |e.indent|)
    requires Has(opts, OptionXform(e.key))
    ensures IsLine(FirstText(e)) && ReadLine(r, FirstText(e), noValue) == Err(DuplicateOption)
  {
    hide Strip, SkipSpaces, SectionHeader, ParseOption, FirstText, PushLine, GoodTails, Pad;
    if e.value.Some? {
      ValueSplits(e, noValue);
    } else {
      BareSplits(e, noValue);
    }
    assert CurOpts(r.(indent := |e.indent|)) == CurOpts(r);
    assert |OptionXform(e.key)| > 0;
  }

  /** Within one section of a document an option must not come back, in any case. */
  lemma {:induction false} OptionTwice(doc: seq<Section>, i: nat, e: Entry, more: string, noValue: bool)
    requires GoodDocument(doc, noValue) && doc != [] && GoodEntry(e, noValue)
    requires var last := doc[|doc| - 1];
             && i < |last.entries| && OptionXform(e.key) == OptionXform(last.entries[i].key)
             && |e.indent| <= CeilingOf(last).value
    ensures ReadLines(NOTHING_READ, Lines(DocumentText(doc) + FirstText(e) + more), noValue) == Err(DuplicateOption)
  {
    hide GoodDocument, SectionsOf, DefaultOf, DocumentText, FirstText, Reached, ReadLine, Lines, ReadLines, GoodEntry,
         OptionXform, Meanings;
    var r := DocumentEnds(doc, noValue);
    KeysMet(doc[|doc| - 1].entries, i);
    KeyTwice(r, Meanings(doc[|doc| - 1].entries), e, noValue);
    Refuses(DocumentText(doc), r, FirstText(e), more, noValue);
  }

  /** An option in front of every header is refused. */
  lemma {:induction false} OptionTooSoon(lead: seq<Tail>, e: Entry, more: string, noValue: bool)
    requires GoodTails(lead, None) && GoodEntry(e, noValue)
    ensures ReadLines(NOTHING_READ, Lines(TailsText(lead) + FirstText(e) + more), noValue) == Err(MissingHeader)
  {
    hide TailsText, FirstText, Reached, Lines, ReadLines, GoodTails, Strip, SectionHeader, ParseOption, SkipSpaces;
    NothingReached(noValue);
    PushesNowhere(NOTHING_READ);
    QuietRead("", NOTHING_READ, lead, noValue);
    Empties(TailsText(lead));
    if e.value.Some? {
      ValueSplits(e, noValue);
    } else {
      BareSplits(e, noValue);
    }
    assert ReadLine(NOTHING_READ, FirstText(e), noValue) == Err(MissingHeader);
    Refuses(TailsText(lead), NOTHING_READ, FirstText(e), more, noValue);
  }

  /** A name without a value cannot be continued. */
  lemma {:induction false} NothingToContinue(doc: seq<Section>, t: Tail, more: string, noValue: bool)
    requires GoodDocument(doc, noValue) && doc != [] && doc[|doc| - 1].entries != []
    requires var es := doc[|doc| - 1].entries;
             es[|es| - 1].value.None? && t.More? && GoodTail(t, Some(|es[|es| - 1].indent|))
    ensures ReadLines(NOTHING_READ, Lines(DocumentText(doc) + TailText(t) + more), noValue) == Err(ContinuesNothing)
  {
    hide GoodDocument, SectionsOf, DefaultOf, DocumentText, Reached, Lines, ReadLines, Strip, SkipSpaces, PushLine;
    var r := DocumentEnds(doc, noValue);
    var es := doc[|doc| - 1].entries;
    LineParts(t.indent, t.text, t.pad);
    assert KeysDiffer(es) by { LastDiffers(doc, None, noValue); }
    LastMeans(es);
    NoneToPush(r, Meanings(es), t.text);
    assert ReadLine(r, TailText(t), noValue) == Err(ContinuesNothing);
    Refuses(DocumentText(doc), r, TailText(t), more, noValue);
  }

  lemma {:induction false} LastDiffers(doc: seq<Section>, ceiling: Option<nat>, noValue: bool)
    requires doc != [] && (GoodDocument(doc, noValue) || GoodSections(doc, ceiling, noValue))
    ensures KeysDiffer(doc[|doc| - 1].entries)
    decreases |doc|
  {
    hide KeysDiffer, GoodEntries, GoodTails, NamesDiffer;
    if |doc| > 1 {
      LastDiffers(doc[1..], CeilingOf(doc[0]), noValue);
    }
  }

  /** The last option of a section is the only one of its name. */
  lemma {:induction false} LastMeans(es: seq<Entry>)
    requires es != [] && KeysDiffer(es)
    ensures var e := es[|es| - 1]; Get(Meanings(es), OptionXform(e.key)) == Some(Meaning(e).1)
  {
    hide OptionXform;
    MeaningsAt(es);
    var ms := Meanings(es);
    assert forall i :: 0 <= i < |es| - 1 ==> ms[i].0 != ms[|es| - 1].0;
    assert Find(ms, ms[|es| - 1].0, 0) == Some(|es| - 1);
  }

  lemma {:induction false} MeaningsAt(es: seq<Entry>)
    ensures |Meanings(es)| == |es| && forall i :: 0 <= i < |es| ==> Meanings(es)[i] == Meaning(es[i])
    decreases |es|
  {
    hide Meaning;
    if es != [] {
      MeaningsAt(es[1..]);
    }
  }

  lemma {:induction false} NoneToPush(r: Reading, opts: Assoc<Acc>, line: string)
    requires CurOpts(r) == Some(opts) && r.opt.Some? && Get(opts, r.opt.value) == Some(None)
    ensures PushLine(r, line).None?
  {
  }

  /** A line that is neither a header nor an option is a fault, and a document with one is refused. */
  lemma {:induction false} NeitherIsRefused(doc: seq<Section>, indent: string, text: string, pad: string, cfg: Config)
    requires GoodDocument(doc, false) && doc != [] && !cfg.noValue && Pad(indent) && Pad(pad)
    requires CeilingOf(doc[|doc| - 1]).Some? ==> |indent| <= CeilingOf(doc[|doc| - 1]).value
    requires PlainKey(text)
    ensures Read(cfg, DocumentText(doc) + (indent + text + pad + "\n")) == Err(Syntax)
  {
    hide GoodDocument, SectionsOf, DefaultOf, DocumentText, Reached, Lines, ReadLines, Strip, SkipSpaces, PushLine,
         Meanings, MergeOpts, MergeSections;
    var r := DocumentEnds(doc, false);
    var line := indent + text + pad + "\n";
    LineParts(indent, text, pad);
    assert FirstDelimiter(text, 0).None?;
    assert CurOpts(r.(indent := |indent|)) == CurOpts(r);
    assert ReadLine(r, line, false) == Ok(r.(indent := |indent|, faults := r.faults + 1));
    Next(DocumentText(doc), r, line, false);
    ReachedMeans(DocumentText(doc) + line, r.(indent := |indent|, faults := r.faults + 1), false);
  }

  lemma {:induction false} ReachedMeans(s: string, r: Reading, noValue: bool)
    requires Reached(s, r, noValue)
    ensures ReadLines(NOTHING_READ, Lines(s), noValue) == Ok(r)
  {
  }
}
