/** The read loop and the writer, as functions of the text and of the configuration. */
module IniRead {
  import opened Bytes
  import opened IniText
  import opened IniModel

  /** The lines gathered for a value; none for a key without one. */
  type Acc = Option<seq<string>>

  datatype Cur =
    | NoSection
    | InDefault
    | InNamed(at: nat)

  /** What a read has gathered, and where it stands. `faults` counts the lines that were not options. */
  datatype Reading = Reading(default: Assoc<Acc>, sections: Assoc<Assoc<Acc>>, cur: Cur, opt: Option<string>,
                             indent: nat, faults: nat)

  const NOTHING_READ: Reading := Reading([], [], NoSection, None, 0, 0)

  function CurOpts(r: Reading): Option<Assoc<Acc>> {
    match r.cur
    case NoSection => None
    case InDefault => Some(r.default)
    case InNamed(i) => if i < |r.sections| then Some(r.sections[i].1) else None
  }

  function WithOpts(r: Reading, opts: Assoc<Acc>): Reading {
    match r.cur
    case NoSection => r
    case InDefault => r.(default := opts)
    case InNamed(i) => if i < |r.sections| then r.(sections := r.sections[i := (r.sections[i].0, opts)]) else r
  }

  /** One more line for the option being read, if it takes any. */
  function PushLine(r: Reading, line: string): Option<Reading> {
    if CurOpts(r).None? || r.opt.None? then None
    else
      var opts, name := CurOpts(r).value, r.opt.value;
      var there: Option<Acc> := Get(opts, name);
      if there.Some? && there.value.Some? then Some(WithOpts(r, Put(opts, name, Some(there.value.value + [line]))))
      else None
  }

  /** The name in `[name]`, up to the last bracket; anything after it is ignored. */
  function SectionHeader(clean: string): Option<string> {
    if clean == "" || clean[0] != '[' then None
    else
      match FindLast(clean, ']', |clean|)
      case None => None
      case Some(close) => if close <= 1 then None else Some(clean[1..close])
  }

  function FirstDelimiter(s: string, i: nat): (r: Option<nat>)
    requires i <= |s|
    ensures r.Some? ==>
              i <= r.value < |s| && IsDelimiter(s[r.value]) && forall k :: i <= k < r.value ==> !IsDelimiter(s[k])
    ensures r.None? ==> forall k :: i <= k < |s| ==> !IsDelimiter(s[k])
    decreases |s| - i
  {
    if i == |s| then None else if IsDelimiter(s[i]) then Some(i) else FirstDelimiter(s, i + 1)
  }

  /** The first `=` or `:` splits key from value. */
  function ParseOption(clean: string, noValue: bool): Option<(string, Value)> {
    match FirstDelimiter(clean, 0)
    case Some(p) => Some((Rstrip(clean[..p]), Some(Strip(clean[p + 1..]))))
    case None => if noValue then Some((Rstrip(clean), None)) else None
  }

  function OpenSection(r: Reading, name: string): Result<Reading> {
    if name == DEFAULT then Ok(r.(cur := InDefault, opt := None))
    else if Has(r.sections, name) then Err(DuplicateSection)
    else Ok(r.(sections := r.sections + [(name, [])], cur := InNamed(|r.sections|), opt := None))
  }

  function AccOf(v: Value): Acc {
    match v
    case None => None
    case Some(line) => Some([line])
  }

  function ReadOption(r: Reading, clean: string, noValue: bool): Result<Reading>
    requires CurOpts(r).Some?
  {
    match ParseOption(clean, noValue)
    case None => Ok(r.(faults := r.faults + 1))
    case Some((raw, value)) =>
      var key, opts := OptionXform(raw), CurOpts(r).value;
      if key == "" then Ok(r.(faults := r.faults + 1))
      else if Has(opts, key) then Err(DuplicateOption)
      else Ok(WithOpts(r, opts + [(key, AccOf(value))]).(opt := Some(key)))
  }

  /**
    One line of the document. Indentation is measured on the line as it stands, matching is done on the
    stripped one.
  */
  function ReadLine(r: Reading, line: string, noValue: bool): Result<Reading> {
    var clean := Strip(line);
    if clean == "" then
      Ok(match PushLine(r, "") case Some(more) => more case None => r)
    else if IsCommentMark(clean[0]) then Ok(r)
    else
      var indent := SkipSpaces(line, 0);
      if r.cur != NoSection && r.opt.Some? && indent > r.indent then
        match PushLine(r, clean)
        case Some(more) => Ok(more)
        case None => Err(ContinuesNothing)
      else
        match SectionHeader(clean)
        case Some(name) => OpenSection(r, name)
        case None =>
          if CurOpts(r).None? then Err(MissingHeader)
          else ReadOption(r.(indent := indent), clean, noValue)
  }

  function ReadLines(r: Reading, lines: seq<string>, noValue: bool): Result<Reading> {
    if lines == [] then Ok(r)
    else
      match ReadLines(r, lines[..|lines| - 1], noValue)
      case Err(e) => Err(e)
      case Ok(more) => ReadLine(more, lines[|lines| - 1], noValue)
  }

  function Join(acc: Acc): Value {
    match acc
    case None => None
    case Some(lines) => Some(if lines == [] then "" else Rstrip(JoinLines(lines)))
  }

  function MergeOpts(into: Opts, from: Assoc<Acc>): Opts {
    if from == [] then into
    else
      var last := from[|from| - 1];
      Put(MergeOpts(into, from[..|from| - 1]), last.0, Join(last.1))
  }

  function MergeSections(into: Assoc<Opts>, from: Assoc<Assoc<Acc>>): Assoc<Opts> {
    if from == [] then into
    else
      var before := MergeSections(into, from[..|from| - 1]);
      var (name, opts) := from[|from| - 1];
      var target := match Get(before, name) case Some(there) => there case None => [];
      Put(before, name, MergeOpts(target, opts))
  }

  /** Parse the document and merge it in; a document with any error changes nothing. */
  function Read(cfg: Config, text: string): Result<Config> {
    match ReadLines(NOTHING_READ, Lines(text), cfg.noValue)
    case Err(e) => Err(e)
    case Ok(r) =>
      if r.faults > 0 then Err(Syntax)
      else Ok(cfg.(defaults := MergeOpts(cfg.defaults, r.default), sections := MergeSections(cfg.sections, r.sections)))
  }

  // ----- writing

  /** Every line break followed by a tab. */
  function Indented(v: string): string {
    if v == "" then ""
    else Indented(v[..|v| - 1]) + if v[|v| - 1] == '\n' then "\n\t" else [v[|v| - 1]]
  }

  function Delim(spaced: bool): string {
    if spaced then " = " else "="
  }

  function ValueText(value: Value): string {
    match value
    case Some(v) => Indented(v)
    case None => "None"
  }

  function OptionText(key: string, value: Value, spaced: bool, noValue: bool): string {
    if value.Some? || !noValue then key + Delim(spaced) + ValueText(value) + "\n" else key + "\n"
  }

  function OptsText(opts: Opts, spaced: bool, noValue: bool): string {
    if opts == [] then ""
    else
      var last := opts[|opts| - 1];
      OptsText(opts[..|opts| - 1], spaced, noValue) + OptionText(last.0, last.1, spaced, noValue)
  }

  function SectionText(name: string, opts: Opts, spaced: bool, noValue: bool): string {
    "[" + name + "]\n" + OptsText(opts, spaced, noValue) + "\n"
  }

  function SectionsText(sections: Assoc<Opts>, spaced: bool, noValue: bool): string {
    if sections == [] then ""
    else
      var last := sections[|sections| - 1];
      SectionsText(sections[..|sections| - 1], spaced, noValue) + SectionText(last.0, last.1, spaced, noValue)
  }

  function Write(cfg: Config, spaced: bool): string {
    (if cfg.defaults == [] then "" else SectionText(DEFAULT, cfg.defaults, spaced, cfg.noValue))
    + SectionsText(cfg.sections, spaced, cfg.noValue)
  }
}
