/** The configuration object as it runs: tables of options on indexed maps, the merge, the writer, and lookups. */
module IniConfig {
  import opened Bytes
  import opened IniText
  import opened IniModel
  import opened IniRead
  import opened IniFile
  import I = IniInterp

  // ----- option tables

  type Options = Ordered<Value>

  ghost function Objects(es: Assoc<Options>): set<object> {
    set i | 0 <= i < |es| :: es[i].1
  }

  /** The sections with the options each of them holds. */
  ghost function Table(es: Assoc<Options>): (r: Assoc<Opts>)
    reads Objects(es)
    ensures |r| == |es| && forall i :: 0 <= i < |es| ==> r[i] == (es[i].0, es[i].1.entries)
  {
    if es == [] then []
    else
      assert Objects(es[..|es| - 1]) <= Objects(es);
      Table(es[..|es| - 1]) + [(es[|es| - 1].0, es[|es| - 1].1.entries)]
  }

  /** No two sections share their options. */
  ghost predicate Apart(es: Assoc<Options>) {
    forall i, j :: 0 <= i < j < |es| ==> es[i].1 != es[j].1
  }

  /** A section sits where its name does. */
  lemma {:induction false} SamePlace(es: Assoc<Options>, table: Assoc<Opts>, name: string, i: nat)
    requires i <= |es| == |table| && forall j :: 0 <= j < |es| ==> table[j].0 == es[j].0
    ensures Find(table, name, i) == Find(es, name, i)
    decreases |es| - i
  {
    if i < |es| {
      SamePlace(es, table, name, i + 1);
    }
  }

  // ----- what a section sees

  /** DEFAULT's entries, each overridden in place by the section's, then the section's own. */
  function Merged(defaults: Opts, opts: Opts): Opts {
    if opts == [] then defaults else Put(Merged(defaults, opts[..|opts| - 1]), opts[|opts| - 1].0, opts[|opts| - 1].1)
  }

  /** The answers a table gives to references. */
  function Answers(entries: Opts): I.View {
    (name: string) => match Get(entries, name) case Some(v) => v case None => None
  }

  /** The values a section's references resolve to: its own, or else DEFAULT's. */
  function Visible(cfg: Config, section: string): I.View {
    (name: string) => match RawLookup(cfg, section, name) case Some(v) => v case None => None
  }

  lemma {:induction false} GetPut<V>(l: Assoc<V>, key: string, v: V, k: string)
    ensures Get(Put(l, key, v), k) == if k == key then Some(v) else Get(l, k)
  {
    var r := Put(l, key, v);
    var at := Find(l, key, 0);
    match at
    case None =>
      assert r[|l|] == (key, v);
      assert forall i :: 0 <= i < |l| ==> r[i] == l[i];
    case Some(n) =>
      assert forall i :: 0 <= i < |l| ==> r[i] == if i == n then (key, v) else l[i];
  }

  lemma {:induction false} GetMerged(defaults: Opts, opts: Opts, key: string)
    requires Distinct(opts)
    ensures Get(Merged(defaults, opts), key) ==
            (match Get(opts, key) case Some(v) => Some(v) case None => Get(defaults, key))
    decreases |opts|
  {
    if opts != [] {
      var front, last := opts[..|opts| - 1], opts[|opts| - 1];
      GetMerged(defaults, front, key);
      GetPut(Merged(defaults, front), last.0, last.1, key);
      assert opts == front + [last];
      LastOf(front, last, key);
    }
  }

  lemma {:induction false} LastOf<V>(front: Assoc<V>, last: (string, V), key: string)
    requires Distinct(front + [last])
    ensures Get(front + [last], key) == if key == last.0 then Some(last.1) else Get(front, key)
  {
    var l := front + [last];
    assert l[|front|] == last;
    assert forall i :: 0 <= i < |front| ==> l[i] == front[i] && front[i].0 != last.0;
    if Find(front, key, 0).None? && key != last.0 {
      assert Find(l, key, 0).None?;
    }
  }

  /** The options of a section, none when there is no such section. */
  function OptionsOf(cfg: Config, section: string): Opts {
    match Get(cfg.sections, section)
    case Some(opts) => opts
    case None => []
  }

  /**
    The merged view answers exactly what section-then-DEFAULT lookup answers, for every section that can be
    addressed.
  */
  lemma {:induction false} ViewIsLookup(cfg: Config, section: string, key: string)
    requires Distinct(cfg.defaults) && Distinct(OptionsOf(cfg, section))
             && (section == DEFAULT || Has(cfg.sections, section))
    ensures Get(Merged(Merged([], cfg.defaults), OptionsOf(cfg, section)), key) == RawLookup(cfg, section, key)
  {
    hide Merged;
    GetMerged([], cfg.defaults, key);
    GetMerged(Merged([], cfg.defaults), OptionsOf(cfg, section), key);
  }

  /** So references resolve the same through either. */
  lemma {:induction false} ViewReads(cfg: Config, section: string, raw: string)
    requires Distinct(cfg.defaults) && Distinct(OptionsOf(cfg, section))
             && (section == DEFAULT || Has(cfg.sections, section))
    ensures I.BeforeGet(Answers(Merged(Merged([], cfg.defaults), OptionsOf(cfg, section))), raw) ==
            I.BeforeGet(Visible(cfg, section), raw)
  {
    hide I.Interpolate, Merged, RawLookup, Get, Find, Distinct;
    var a, b := Answers(Merged(Merged([], cfg.defaults), OptionsOf(cfg, section))), Visible(cfg, section);
    forall name
      ensures a(name) == b(name)
    {
      ViewIsLookup(cfg, section, name);
    }
    I.SameAnswers(a, b, raw, 0, 1, "");
  }

  /** What `get` answers. */
  function Got(cfg: Config, section: string, option: string): Result<Option<I.Outcome>> {
    var raw := RawLookup(cfg, section, OptionXform(option));
    if section != DEFAULT && !Has(cfg.sections, section) then Err(NoSuchSection)
    else if raw.None? || raw.value.None? then Ok(None)
    else if !cfg.interp then Ok(Some(I.Done(raw.value.value)))
    else Ok(Some(I.BeforeGet(Visible(cfg, section), raw.value.value)))
  }

  lemma {:induction false} SetIsStored(cfg: Config, section: string, option: string, value: Value)
    requires !Has(cfg.sections, DEFAULT) && Set(cfg, section, option, value, I.Admits).Ok?
    ensures var after := Set(cfg, section, option, value, I.Admits).value;
            && RawLookup(after, section, OptionXform(option)) == Some(value) && after.interp == cfg.interp
            && (section == DEFAULT || Has(after.sections, section))
  {
    hide OptionXform, KeyFault, I.Admits, Find, Put;
    var key := OptionXform(option);
    if section == DEFAULT {
      GetPut(cfg.defaults, key, value, key);
    } else {
      var opts := Get(cfg.sections, section).value;
      GetPut(opts, key, value, key);
      GetPut(cfg.sections, section, Put(opts, key, value), section);
    }
  }

  /** A value that `set` took is then read exactly when no reference is bridged, all resolve, and the size allows. */
  lemma {:induction false} SetThenGot(cfg: Config, section: string, option: string, value: string)
    requires cfg.interp && !Has(cfg.sections, DEFAULT) && Set(cfg, section, option, Some(value), I.Admits).Ok?
    ensures var after := Set(cfg, section, option, Some(value), I.Admits).value;
            var view, got := Visible(after, section), Got(after, section, option);
            && (I.Subst(view, value, 0, 1).Done? <==> I.Unbridged(value, 0) && I.Resolves(view, value, 0, 1))
            && got.Ok? && got.value.Some?
            && (got.value.value.Done? <==>
                  I.Unbridged(value, 0) && I.Resolves(view, value, 0, 1) &&
                  I.Peak(view, value, 0, 1, "") <= I.MAX_OUTPUT)
            && (got.value.value.Done? ==> got.value.value == I.Subst(view, value, 0, 1))
  {
    SetIsStored(cfg, section, option, Some(value));
    hide RawLookup, OptionXform, I.Interpolate, I.Subst, I.Peak, I.Resolves, I.Unbridged, Visible, InSection;
    assert I.Admits(value);
    var view := Visible(Set(cfg, section, option, Some(value), I.Admits).value, section);
    hide I.Admits;
    I.AdmittedIsReadable(view, value);
    if I.BeforeGet(view, value).Done? {
      I.InterpolateSubstitutes(view, value, 0, 1, "");
    }
  }

  /** Interpolation as it runs: appending to one output, and recursing into the values that need it. */
  method Expand(view: Options, s: string, depth: nat, out: string) returns (r: I.Outcome)
    requires view.Valid()
    ensures r == I.Interpolate(Answers(view.entries), s, 0, depth, out)
    decreases I.MAX_DEPTH + 1 - Min(depth, I.MAX_DEPTH + 1)
  {
    hide I.Size, OptionXform, I.KeyRef, FindFrom, Get, Indexes;
    if depth > I.MAX_DEPTH {
      return I.Fail(I.TooDeep);
    }
    var i, text := 0, out;
    ghost var answers := Answers(view.entries);
    while i < |s|
      invariant i <= |s| && I.Interpolate(answers, s, i, depth, text) == I.Interpolate(answers, s, 0, depth, out)
      decreases |s| - i
    {
      if I.Size(text) > I.MAX_OUTPUT {
        return I.Fail(I.TooLarge);
      }
      var found := FindFrom(s, '%', i);
      if found.None? {
        return I.Done(text + s[i..]);
      }
      var p := found.value;
      var lit := text + s[i..p];
      if p + 1 < |s| && s[p + 1] == '%' {
        i, text := p + 2, lit + "%";
      } else if p + 1 < |s| && s[p + 1] == '(' {
        var named := I.KeyRef(s, p);
        if named.None? {
          return I.Fail(I.BadReference);
        }
        var there := view.Lookup(OptionXform(named.value.0));
        if there.None? || there.value.None? {
          return I.Fail(I.Missing);
        }
        var value := there.value.value;
        if FindFrom(value, '%', 0).Some? {
          var inner := Expand(view, value, depth + 1, lit);
          if inner.Fail? {
            return inner;
          }
          text := inner.text;
        } else {
          text := lit + value;
        }
        i := named.value.1;
      } else {
        return I.Fail(I.BadEscape);
      }
    }
    r := I.Done(text);
  }

  /** Overlay gathered options on a table. */
  method MergeAll(into: Options, from: Assoc<Acc>)
    requires into.Valid()
    modifies into
    ensures into.Valid() && into.entries == MergeOpts(old(into.entries), from)
  {
    hide Join, Put, Indexes;
    for i := 0 to |from|
      invariant into.Valid() && into.entries == MergeOpts(old(into.entries), from[..i])
    {
      Prefix(from, i);
      var _ := into.Insert(from[i].0, Join(from[i].1));
    }
    assert from[..|from|] == from;
  }

  /** Read a document's lines into a working state, up to the first error. */
  method Gather(text: string, noValue: bool) returns (e: Option<Error>, work: Work)
    ensures fresh(work)
    ensures match ReadLines(NOTHING_READ, Lines(text), noValue)
            case Ok(r) => e.None? && work.Valid() && work.Value() == r
            case Err(error) => e == Some(error)
  {
    hide ReadLine, Lines, Tracks;
    var lines := Lines(text);
    work := new Work();
    var i := 0;
    assert lines[..0] == [];
    while i < |lines|
      invariant i <= |lines| && fresh(work) && work.Valid()
      invariant ReadLines(NOTHING_READ, lines[..i], noValue) == Ok(work.Value())
    {
      LinesStep(lines, i, noValue);
      e := work.Line(lines[i], noValue);
      if e.Some? {
        ErrorSticks(lines, i + 1, noValue);
        return;
      }
      i := i + 1;
    }
    assert lines[..i] == lines;
    e := None;
  }

  class ConfigFile {
    const defaults: Options
    const sections: Ordered<Options>
    const noValue: bool
    const interp: bool

    ghost function Repr(): set<object>
      reads sections
    {
      {defaults, sections} + Objects(sections.entries)
    }

    /** Every table is indexed, and none is shared. */
    ghost predicate Valid()
      reads Repr()
    {
      var all: object := sections;
      && defaults.Valid() && sections.Valid() && Apart(sections.entries) && all != defaults
      && (forall i :: 0 <= i < |sections.entries| ==>
            var o := sections.entries[i].1; o.Valid() && o != defaults && all != o)
    }

    ghost function Value(): Config
      reads Repr()
    {
      Config(defaults.entries, Table(sections.entries), noValue, interp)
    }

    constructor (allowNoValue: bool, basic: bool)
      ensures Valid() && Value() == Config([], [], allowNoValue, basic) && fresh(Repr())
    {
      defaults := new Ordered();
      sections := new Ordered();
      noValue, interp := allowNoValue, basic;
    }

    // ----- one table

    ghost predicate IsSlot(section: string, slot: Option<Options>)
      reads sections
    {
      slot == if section == DEFAULT then Some(defaults) else Get(sections.entries, section)
    }

    /** Where a section's options live, DEFAULT's among them. */
    method Slot(section: string) returns (slot: Option<Options>)
      requires Valid()
      ensures IsSlot(section, slot)
      ensures slot.Some? ==> slot.value in Repr() && slot.value.Valid()
    {
      if section == DEFAULT {
        return Some(defaults);
      }
      hide Indexes;
      slot := sections.Lookup(section);
    }

    /** What a section's table holds is what the configuration holds there. */
    lemma {:induction false} SectionHolds(name: string, there: Option<Options>)
      requires Valid() && there == Get(sections.entries, name)
      ensures Get(Value().sections, name) == match there case Some(o) => Some(o.entries) case None => None
      ensures there.Some? ==> there.value in Objects(sections.entries) && there.value.Valid()
      ensures (Has(Value().sections, name) <==> there.Some?) && (Has(sections.entries, name) <==> there.Some?)
    {
      hide Indexes;
      SamePlace(sections.entries, Table(sections.entries), name, 0);
    }

    lemma {:induction false} SlotHolds(section: string, slot: Option<Options>)
      requires Valid() && IsSlot(section, slot)
      ensures slot.Some? ==> slot.value in Repr() && slot.value.Valid()
      ensures section != DEFAULT ==>
                Get(Value().sections, section) == match slot case Some(o) => Some(o.entries) case None => None
      ensures section != DEFAULT ==> (Has(Value().sections, section) <==> slot.Some?)
    {
      if section != DEFAULT {
        SectionHolds(section, slot);
      }
    }

    /** Since the state `was`, nothing but this table has changed. */
    ghost predicate Only(was: Config, slot: Options)
      reads Repr()
    {
      && was.noValue == noValue && was.interp == interp && (slot != defaults ==> was.defaults == defaults.entries)
      && |was.sections| == |sections.entries|
      && forall i :: 0 <= i < |was.sections| ==>
           && was.sections[i].0 == sections.entries[i].0
           && (sections.entries[i].1 != slot ==> was.sections[i].1 == sections.entries[i].1.entries)
    }

    /** So the configuration changed in that section, and nowhere else. */
    lemma {:induction false} SectionChanged(name: string, options: Options, was: Config)
      requires Valid() && Get(sections.entries, name) == Some(options) && Only(was, options)
      ensures Value() == was.(sections := Put(was.sections, name, options.entries))
    {
      hide Indexes;
      SamePlace(sections.entries, was.sections, name, 0);
      var n := Find(sections.entries, name, 0).value;
      assert forall i :: 0 <= i < |was.sections| && i != n ==> sections.entries[i].1 != options;
      assert Table(sections.entries) == was.sections[n := (name, options.entries)];
    }

    lemma {:induction false} SlotChanged(section: string, slot: Options, was: Config)
      requires Valid() && IsSlot(section, Some(slot)) && Only(was, slot)
      ensures Value() == if section == DEFAULT then was.(defaults := slot.entries)
                         else was.(sections := Put(was.sections, section, slot.entries))
    {
      if section == DEFAULT {
        hide Indexes;
        assert Table(sections.entries) == was.sections;
      } else {
        hide Put, Indexes;
        SectionChanged(section, slot, was);
      }
    }

    method InsertAt(slot: Options, key: string, value: Value)
      requires Valid() && (slot == defaults || slot in Objects(sections.entries))
      modifies slot
      ensures Valid() && slot.entries == Put(old(slot.entries), key, value) && Only(old(Value()), slot)
      ensures sections.entries == old(sections.entries)
    {
      hide Indexes, Put;
      var _ := slot.Insert(key, value);
    }

    method RemoveAt(slot: Options, key: string) returns (existed: bool)
      requires Valid() && (slot == defaults || slot in Objects(sections.entries))
      modifies slot
      ensures Valid() && slot.entries == Del(old(slot.entries), key) && Only(old(Value()), slot)
      ensures sections.entries == old(sections.entries) && existed == Has(old(slot.entries), key)
    {
      hide Indexes, Del;
      var gone := slot.Remove(key);
      existed := gone.Some?;
    }

    method MergeAt(slot: Options, from: Assoc<Acc>)
      requires Valid() && (slot == defaults || slot in Objects(sections.entries))
      modifies slot
      ensures Valid() && slot.entries == MergeOpts(old(slot.entries), from) && Only(old(Value()), slot)
      ensures sections.entries == old(sections.entries)
    {
      hide Indexes, MergeOpts;
      MergeAll(slot, from);
    }

    /** The new state, or the error and the old one. */
    ghost predicate Outcome(e: Option<Error>, r: Result<Config>, was: Config)
      reads Repr()
    {
      match r
      case Ok(cfg) => e.None? && Value() == cfg
      case Err(error) => e == Some(error) && Value() == was
    }

    // ----- changing it

    method NewSection(name: string) returns (e: Option<Error>)
      requires Valid()
      modifies Repr()
      ensures Valid() && fresh(Repr() - old(Repr()))
      ensures Outcome(e, AddSection(old(Value()), name), old(Value()))
    {
      hide Indexes, SectionFault, Put;
      if SectionFault(name) || name == DEFAULT {
        return Some(BadName);
      }
      var there := Slot(name);
      SlotHolds(name, there);
      if there.Some? {
        return Some(SectionExists);
      }
      Append(name);
      return None;
    }

    /** A section of that name, last and empty. */
    method Append(name: string)
      requires Valid() && !Has(sections.entries, name)
      modifies sections
      ensures Valid() && fresh(Repr() - old(Repr())) && old(Repr()) <= Repr()
      ensures Value() == old(Value()).(sections := Put(old(Value()).sections, name, []))
      ensures Has(sections.entries, name)
              && forall o :: o in old(Objects(sections.entries)) ==> o in Objects(sections.entries)
    {
      hide Indexes, Table, Find, Put;
      ghost var was, before := Table(sections.entries), sections.entries;
      PutLast(before, was, name);
      var blank := new Ordered<Value>();
      PutBlank(before, name, blank);
      var _ := sections.Insert(name, blank);
      TableSnoc(before, name, blank);
      ObjectsSnoc(before, name, blank);
    }

    method SetOption(section: string, option: string, value: Value) returns (e: Option<Error>)
      requires Valid()
      modifies Repr()
      ensures Valid() && sections.entries == old(sections.entries)
      ensures Outcome(e, Set(old(Value()), section, option, value, I.Admits), old(Value()))
    {
      hide Indexes, I.Admits, KeyFault, OptionXform, Put, Find, Only, Table;
      var key := OptionXform(option);
      if KeyFault(key) {
        return Some(BadName);
      }
      if interp && value.Some? && !I.Admits(value.value) {
        return Some(BadInterpolation);
      }
      var slot := Slot(section);
      SlotHolds(section, slot);
      if slot.None? {
        return Some(NoSuchSection);
      }
      ghost var was := Value();
      InsertAt(slot.value, key, value);
      SlotChanged(section, slot.value, was);
      return None;
    }

    method UnsetOption(section: string, option: string) returns (e: Option<Error>, existed: bool)
      requires Valid()
      modifies Repr()
      ensures Valid() && sections.entries == old(sections.entries)
      ensures Outcome(e, RemoveOption(old(Value()), section, option), old(Value()))
      ensures existed == Has(if section == DEFAULT then old(Value()).defaults else OptionsOf(old(Value()), section),
                             OptionXform(option))
    {
      hide Indexes, OptionXform, Put, Find, Del, Only, Table;
      var key := OptionXform(option);
      var slot := Slot(section);
      SlotHolds(section, slot);
      if slot.None? {
        NothingThere<Value>(key);
        return Some(NoSuchSection), false;
      }
      ghost var was := Value();
      existed := RemoveAt(slot.value, key);
      SlotChanged(section, slot.value, was);
      e := None;
    }

    method DropSection(name: string) returns (existed: bool)
      requires Valid()
      modifies sections
      ensures Valid() && Repr() <= old(Repr())
      ensures Value() == RemoveSection(old(Value()), name) && existed == Has(old(Value()).sections, name)
    {
      hide Indexes;
      ghost var was, before := Table(sections.entries), sections.entries;
      SamePlace(sections.entries, was, name, 0);
      var gone := sections.Remove(name);
      existed := gone.Some?;
      assert forall i :: 0 <= i < |sections.entries| ==> sections.entries[i] in before by { DelIn(before, name); }
      DelApart(before, name);
      DelTable(before, was, name, Table(sections.entries));
    }

    // ----- reading a document

    /** The section's table, made last and empty when there is none. */
    method Ensure(name: string) returns (options: Options)
      requires Valid()
      modifies sections
      ensures Valid() && fresh(Repr() - old(Repr())) && Get(sections.entries, name) == Some(options)
      ensures options in Objects(sections.entries) && options.entries == OptionsOf(old(Value()), name)
      ensures var was := old(Value());
              Value() == was || Value() == was.(sections := Put(was.sections, name, []))
      ensures options in old(Repr()) || fresh(options)
    {
      hide Indexes, Put, Table, Get;
      ghost var was := Value();
      var there := sections.Lookup(name);
      SectionHolds(name, there);
      if there.None? {
        Append(name);
        there := sections.Lookup(name);
        SectionHolds(name, there);
        BlankThere(was.sections, name);
      }
      options := there.value;
    }

    /** Overlay one section, a new one last. */
    method MergeSection(name: string, from: Assoc<Acc>)
      requires Valid()
      modifies Repr()
      ensures Valid() && fresh(Repr() - old(Repr()))
      ensures var was := old(Value());
              Value() == was.(sections := Put(was.sections, name, MergeOpts(OptionsOf(was, name), from)))
    {
      hide Indexes, MergeOpts, Put, Table, Get, Only;
      ghost var was := Value();
      var options := Ensure(name);
      ghost var before := Value();
      MergeAt(options, from);
      SectionChanged(name, options, before);
      PutPut(was.sections, name, [], options.entries);
    }

    method Merge(default: Assoc<Acc>, from: Assoc<Assoc<Acc>>)
      requires Valid()
      modifies Repr()
      ensures Valid() && fresh(Repr() - old(Repr()))
      ensures var was := old(Value());
              Value() == was.(defaults := MergeOpts(was.defaults, default),
                              sections := MergeSections(was.sections, from))
    {
      hide Indexes, MergeOpts, Put, Get, Table, Only;
      ghost var was := Value();
      MergeAt(defaults, default);
      SlotChanged(DEFAULT, defaults, was);
      ghost var base := Value();
      for i := 0 to |from|
        invariant Valid() && fresh(Repr() - old(Repr()))
        invariant Value() == base.(sections := MergeSections(base.sections, from[..i]))
      {
        Prefix(from, i);
        MergeSection(from[i].0, from[i].1);
      }
      assert from[..|from|] == from;
    }

    /** Parse a document and merge it in; on an error the configuration is untouched. */
    method ReadStr(text: string) returns (e: Option<Error>)
      requires Valid()
      modifies Repr()
      ensures Valid() && fresh(Repr() - old(Repr()))
      ensures Outcome(e, Read(old(Value()), text), old(Value()))
    {
      hide ReadLines, MergeOpts, MergeSections, Indexes, Table, Lines, Tracks;
      ghost var was := Value();
      var work;
      e, work := Gather(text, noValue);
      assert Value() == was && Repr() == old(Repr());
      if e.Some? {
        return;
      }
      if work.faults > 0 {
        return Some(Syntax);
      }
      Merge(work.default, work.sections);
    }

    // ----- writing it

    method WriteSection(out: string, name: string, opts: Opts, spaced: bool) returns (r: string)
      ensures r == out + SectionText(name, opts, spaced, noValue)
    {
      hide OptionText, Indented;
      r := out + "[" + name + "]\n";
      var head := r;
      for i := 0 to |opts|
        invariant r == head + OptsText(opts[..i], spaced, noValue)
      {
        Prefix(opts, i);
        AppendAppend(head, OptsText(opts[..i], spaced, noValue), OptionText(opts[i].0, opts[i].1, spaced, noValue));
        r := r + WriteOption(opts[i].0, opts[i].1, spaced);
      }
      assert opts[..|opts|] == opts;
      r := r + "\n";
      var body := OptsText(opts, spaced, noValue);
      assert r == out + ("[" + name + "]\n" + body + "\n");
    }

    function WriteOption(key: string, value: Value, spaced: bool): (r: string)
      ensures r == OptionText(key, value, spaced, noValue)
    {
      if value.Some? || !noValue then
        key + (if spaced then " = " else "=") + (if value.Some? then Indented(value.value) else "None") + "\n"
      else key + "\n"
    }

    method WriteSections(out: string, spaced: bool) returns (r: string)
      requires Valid()
      ensures r == out + SectionsText(Value().sections, spaced, noValue)
    {
      hide SectionText, Indexes, Apart;
      ghost var table := Table(sections.entries);
      r := out;
      assert out == out + SectionsText(table[..0], spaced, noValue);
      for i := 0 to |sections.entries|
        invariant r == out + SectionsText(table[..i], spaced, noValue)
      {
        Prefix(table, i);
        var name, opts := sections.entries[i].0, sections.entries[i].1.entries;
        AppendAppend(out, SectionsText(table[..i], spaced, noValue), SectionText(name, opts, spaced, noValue));
        r := WriteSection(r, name, opts, spaced);
      }
      assert table[..|table|] == table;
      assert Table(sections.entries) == table;
    }

    /** The configuration's text, with or without spaces around the delimiter. */
    method ToText(spaced: bool) returns (out: string)
      requires Valid()
      ensures out == Write(Value(), spaced)
    {
      hide SectionText, SectionsText, Indexes, Table;
      ghost var cfg := Value();
      var head := "";
      if defaults.entries != [] {
        head := WriteSection("", DEFAULT, defaults.entries, spaced);
        Empties(SectionText(DEFAULT, defaults.entries, spaced, noValue));
      }
      assert Value() == cfg;
      assert head == if cfg.defaults == [] then "" else SectionText(DEFAULT, cfg.defaults, spaced, noValue);
      out := WriteSections(head, spaced);
      assert Value() == cfg;
      assert out == head + SectionsText(cfg.sections, spaced, noValue);
    }

    // ----- looking things up

    /** A section's own value, or else DEFAULT's; a section that does not exist inherits nothing. */
    method RawValue(section: string, key: string) returns (r: Option<Value>)
      requires Valid()
      ensures r == RawLookup(Value(), section, key)
    {
      hide Indexes, Get, Table;
      ghost var cfg := Value();
      var there := sections.Lookup(section);
      SectionHolds(section, there);
      if there.Some? {
        r := there.value.Lookup(key);
        if r.None? {
          r := defaults.Lookup(key);
        }
      } else if section == DEFAULT {
        r := defaults.Lookup(key);
      } else {
        r := None;
      }
      assert Value() == cfg;
    }

    /** An option's value, interpolated when the configuration does that; none when it is absent or valueless. */
    method GetOption(section: string, option: string) returns (r: Result<Option<I.Outcome>>)
      requires Valid()
      ensures r == Got(Value(), section, option)
    {
      hide Indexes, I.Interpolate, OptionXform, Find, RawLookup, Table, Get, Merged, Distinct, OptionsOf, Visible,
           Answers, Apart;
      ghost var cfg := Value();
      var slot := Slot(section);
      SlotHolds(section, slot);
      if slot.None? {
        return Err(NoSuchSection);
      }
      var raw := RawValue(section, OptionXform(option));
      if raw.None? || raw.value.None? {
        return Ok(None);
      }
      if !interp {
        return Ok(Some(I.Done(raw.value.value)));
      }
      AllDistinct(section);
      var view := MergedView(section);
      assert Value() == cfg;
      ViewReads(cfg, section, raw.value.value);
      var got := Expand(view, raw.value.value, 1, "");
      return Ok(Some(got));
    }

    lemma {:induction false} AllDistinct(section: string)
      requires Valid()
      ensures Distinct(Value().defaults) && Distinct(OptionsOf(Value(), section))
    {
      IndexFinds(defaults.index, defaults.entries, "");
      hide Indexes;
      SamePlace(sections.entries, Table(sections.entries), section, 0);
      var at := Find(sections.entries, section, 0);
      if at.Some? {
        var o := sections.entries[at.value].1;
        IndexFinds(o.index, o.entries, "");
      }
    }

    /** Every option visible in a section, with its raw value. */
    method MergedView(section: string) returns (view: Options)
      requires Valid()
      ensures fresh(view) && view.Valid()
      ensures view.entries == Merged(Merged([], Value().defaults), OptionsOf(Value(), section))
    {
      hide Indexes, Put, Get, Table, Merged;
      var there := sections.Lookup(section);
      ghost var cfg := Value();
      SectionHolds(section, there);
      var upper := if there.Some? then there.value.entries else [];
      var lower := defaults.entries;
      view := new Ordered();
      OverlayOn(view, lower);
      OverlayOn(view, upper);
      assert Value() == cfg;
    }
  }

  /** Upsert one table's entries over another. */
  method OverlayOn(view: Options, opts: Opts)
    requires view.Valid()
    modifies view
    ensures view.Valid() && view.entries == Merged(old(view.entries), opts)
  {
    hide Put, Find, Indexes;
    for i := 0 to |opts|
      invariant view.Valid() && view.entries == Merged(old(view.entries), opts[..i])
    {
      Prefix(opts, i);
      var _ := view.Insert(opts[i].0, opts[i].1);
    }
    assert opts[..|opts|] == opts;
  }

  lemma {:induction false} BlankThere(l: Assoc<Opts>, name: string)
    ensures Get(Put(l, name, []), name) == Some([])
  {
    GetPut(l, name, [], name);
  }

  lemma {:induction false} PutPut<V>(l: Assoc<V>, name: string, a: V, b: V)
    ensures Put(Put(l, name, a), name, b) == Put(l, name, b)
  {
    match Find(l, name, 0)
    case None =>
      var m := l + [(name, a)];
      assert forall i :: 0 <= i < |l| ==> m[i] == l[i];
      FindIs(m, name, |l|);
    case Some(n) =>
      var m := l[n := (name, a)];
      assert forall i :: 0 <= i < n ==> m[i] == l[i];
      FindIs(m, name, n);
      assert m[n := (name, b)] == l[n := (name, b)];
  }

  lemma {:induction false} FindIs<V>(l: Assoc<V>, name: string, n: nat)
    requires n < |l| && l[n].0 == name && forall i :: 0 <= i < n ==> l[i].0 != name
    ensures Find(l, name, 0) == Some(n)
  {
  }

  lemma {:induction false} PutLast(es: Assoc<Options>, table: Assoc<Opts>, name: string)
    requires !Has(es, name) && |es| == |table| && forall j :: 0 <= j < |es| ==> table[j].0 == es[j].0
    ensures Put(table, name, []) == table + [(name, [])]
  {
    SamePlace(es, table, name, 0);
  }

  lemma {:induction false} PutBlank(es: Assoc<Options>, name: string, o: Options)
    requires !Has(es, name)
    ensures Put(es, name, o) == es + [(name, o)] && Has(es + [(name, o)], name)
  {
    FindIs(es + [(name, o)], name, |es|);
  }

  lemma {:induction false} TableSnoc(es: Assoc<Options>, name: string, o: Options)
    ensures Table(es + [(name, o)]) == Table(es) + [(name, o.entries)]
  {
    var more := es + [(name, o)];
    assert more[..|more| - 1] == es;
  }

  lemma {:induction false} ObjectsSnoc(es: Assoc<Options>, name: string, o: Options)
    ensures Objects(es + [(name, o)]) == Objects(es) + {o}
    ensures forall i :: 0 <= i < |es| ==> (es + [(name, o)])[i] == es[i]
  {
    var more := es + [(name, o)];
    assert more[|es|].1 == o;
    forall x | x in Objects(es)
      ensures x in Objects(more)
    {
      var i :| 0 <= i < |es| && es[i].1 == x;
      assert more[i].1 == x;
    }
  }

  lemma {:induction false} DelIn(es: Assoc<Options>, name: string)
    ensures forall i :: 0 <= i < |Del(es, name)| ==> Del(es, name)[i] in es
  {
  }

  /** What removal leaves, place by place. */
  lemma {:induction false} DelAt<V>(l: Assoc<V>, name: string, n: nat)
    requires Find(l, name, 0) == Some(n)
    ensures Del(l, name) == Without(l, n)
  {
  }

  lemma {:induction false} DelApart(es: Assoc<Options>, name: string)
    requires Apart(es)
    ensures Apart(Del(es, name))
  {
    if Find(es, name, 0).Some? {
      DelAt(es, name, Find(es, name, 0).value);
      hide Find, Del;
    }
  }

  lemma {:induction false} DelTable(es: Assoc<Options>, table: Assoc<Opts>, name: string, r: Assoc<Opts>)
    requires |table| == |es| && forall i :: 0 <= i < |es| ==> table[i] == (es[i].0, es[i].1.entries)
    requires |r| == |Del(es, name)|
             && forall i :: 0 <= i < |r| ==> r[i] == (Del(es, name)[i].0, Del(es, name)[i].1.entries)
    ensures r == Del(table, name)
  {
    SamePlace(es, table, name, 0);
    var at := Find(es, name, 0);
    if at.Some? {
      hide Find, Del;
      DelAt(es, name, at.value);
      DelAt(table, name, at.value);
    }
  }

  lemma {:induction false} NothingThere<V>(key: string)
    ensures !Has<V>([], key)
  {
  }
}
