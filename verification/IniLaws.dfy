/** What the operations on a configuration do to what it holds, entry by entry. */
module IniLaws {
  import opened Bytes
  import opened IniText
  import opened IniModel
  import opened IniRead
  import opened IniRoundTrip
  import opened IniReachable
  import K = IniConfig
  import G = IniGrammar

  /** The value a section itself holds for a key, `DEFAULT` being a section like any other. */
  function Stored(cfg: Config, section: string, key: string): Option<Value> {
    if section == DEFAULT then Get(cfg.defaults, key)
    else
      match Get(cfg.sections, section)
      case Some(opts) => Get(opts, key)
      case None => None
  }

  /** The options a section itself holds, in order. */
  function Held(cfg: Config, section: string): Opts {
    if section == DEFAULT then cfg.defaults else K.OptionsOf(cfg, section)
  }

  function Keys<V>(l: Assoc<V>): seq<string> {
    if l == [] then [] else Keys(l[..|l| - 1]) + [l[|l| - 1].0]
  }

  /** The keys of the second list that the first does not have, in their order. */
  function NewKeys<V, W>(into: Assoc<V>, from: Assoc<W>): seq<string> {
    if from == [] then []
    else
      var last := from[|from| - 1].0;
      NewKeys(into, from[..|from| - 1]) + if Has(into, last) then [] else [last]
  }

  // ----- names

  predicate SameLetter(a: char, b: char) {
    a == b || ('A' <= a <= 'Z' && b as int == a as int + 32) || ('A' <= b <= 'Z' && a as int == b as int + 32)
  }

  /** Two spellings name one option exactly when they differ at most in the case of ASCII letters. */
  lemma {:induction false} NamesIgnoreCase(s: string, t: string)
    ensures OptionXform(s) == OptionXform(t) <==> |s| == |t| && forall i :: 0 <= i < |s| ==> SameLetter(s[i], t[i])
    ensures OptionXform(s) == s <==> forall i :: 0 <= i < |s| ==> !('A' <= s[i] <= 'Z')
  {
    if |s| == |t| {
      assert forall i :: 0 <= i < |s| ==> (OptionXform(s)[i] == OptionXform(t)[i] <==> SameLetter(s[i], t[i]));
    }
    assert forall i :: 0 <= i < |s| ==> (OptionXform(s)[i] == s[i] <==> !('A' <= s[i] <= 'Z'));
  }

  // ----- one list over another

  lemma {:induction false} KeysAt<V>(l: Assoc<V>)
    ensures |Keys(l)| == |l| && forall i :: 0 <= i < |l| ==> Keys(l)[i] == l[i].0
    decreases |l|
  {
    if l != [] {
      KeysAt(l[..|l| - 1]);
    }
  }

  lemma {:induction false} KeysPut<V>(l: Assoc<V>, k: string, v: V)
    ensures Keys(Put(l, k, v)) == if Has(l, k) then Keys(l) else Keys(l) + [k]
  {
    KeysAt(l);
    KeysAt(Put(l, k, v));
  }

  lemma {:induction false} HasInKeys<V>(l: Assoc<V>, k: string)
    ensures Has(l, k) <==> k in Keys(l)
  {
    KeysAt(l);
    if k in Keys(l) {
      var i :| 0 <= i < |Keys(l)| && Keys(l)[i] == k;
      assert l[i].0 == k;
    }
  }

  lemma {:induction false} GetLast<V>(l: Assoc<V>, key: string)
    requires Distinct(l) && l != []
    ensures Distinct(l[..|l| - 1])
    ensures Get(l, key) == if key == l[|l| - 1].0 then Some(l[|l| - 1].1) else Get(l[..|l| - 1], key)
    ensures !Has(l[..|l| - 1], l[|l| - 1].0)
  {
    var front, last := l[..|l| - 1], l[|l| - 1];
    assert l == front + [last];
    K.LastOf(front, last, key);
  }

  /** A document's value for an option overrides the one there, and leaves every other. */
  lemma {:induction false} MergeOverrides(into: Opts, from: Assoc<Acc>, k: string)
    requires Distinct(from)
    ensures Get(MergeOpts(into, from), k) ==
            (match Get(from, k) case Some(acc) => Some(Join(acc)) case None => Get(into, k))
    decreases |from|
  {
    hide Join, Get, Put, Distinct;
    if from == [] {
      NoneThere<Acc>(k);
    } else {
      var front, last := from[..|from| - 1], from[|from| - 1];
      GetLast(from, k);
      MergeOverrides(into, front, k);
      K.GetPut(MergeOpts(into, front), last.0, Join(last.1), k);
    }
  }

  lemma {:induction false} NoneThere<V>(k: string)
    ensures Get<V>([], k) == None && !Has<V>([], k)
  {
  }

  /** What was there keeps its place, and what is new comes behind it, in the document's order. */
  lemma {:induction false} MergeKeepsOrder(into: Opts, from: Assoc<Acc>)
    requires Distinct(from)
    ensures Keys(MergeOpts(into, from)) == Keys(into) + NewKeys(into, from)
    decreases |from|
  {
    hide Join, Put, Distinct, Has, Keys;
    if from == [] {
      Empties(Keys(into));
    } else {
      var front, last := from[..|from| - 1], from[|from| - 1].0;
      GetLast(from, last);
      MergeKeepsOrder(into, front);
      KeysPut(MergeOpts(into, front), last, Join(from[|from| - 1].1));
      HasInKeys(MergeOpts(into, front), last);
      HasInKeys(into, last);
      NewAreFrom(into, front, last);
      Empties(Keys(into) + NewKeys(into, front));
      AppendAppend(Keys(into), NewKeys(into, front), [last]);
    }
  }

  lemma {:induction false} NewAreFrom<V, W>(into: Assoc<V>, from: Assoc<W>, k: string)
    ensures k in NewKeys(into, from) <==> Has(from, k) && !Has(into, k)
    decreases |from|
  {
    if from != [] {
      var front, last := from[..|from| - 1], from[|from| - 1].0;
      NewAreFrom(into, front, k);
      assert Has(from, k) <==> Has(front, k) || last == k by { HasLast(from, k); }
    }
  }

  lemma {:induction false} HasLast<V>(l: Assoc<V>, k: string)
    requires l != []
    ensures Has(l, k) <==> Has(l[..|l| - 1], k) || l[|l| - 1].0 == k
  {
    var front := l[..|l| - 1];
    assert forall i :: 0 <= i < |front| ==> front[i] == l[i];
    if Has(front, k) {
      assert l[Find(front, k, 0).value].0 == k;
    }
  }

  function OrNone(o: Option<Opts>): Opts {
    match o
    case Some(opts) => opts
    case None => []
  }

  /** Section by section, a document's options are merged over the ones there, and other sections are left. */
  lemma {:induction false} MergeSectionsOverrides(into: Assoc<Opts>, from: Assoc<Assoc<Acc>>, name: string)
    requires Distinct(from)
    ensures Get(MergeSections(into, from), name) ==
            (match Get(from, name)
             case Some(accs) => Some(MergeOpts(OrNone(Get(into, name)), accs))
             case None => Get(into, name))
    decreases |from|
  {
    hide MergeOpts, Get, Put, Distinct;
    if from == [] {
      NoneThere<Assoc<Acc>>(name);
    } else {
      var front, last := from[..|from| - 1], from[|from| - 1];
      GetLast(from, name);
      NotGot(front, last.0);
      MergeSectionsOverrides(into, front, name);
      MergeSectionsOverrides(into, front, last.0);
      var before := MergeSections(into, front);
      K.GetPut(before, last.0, MergeOpts(OrNone(Get(before, last.0)), last.1), name);
    }
  }

  lemma {:induction false} NotGot<V>(l: Assoc<V>, k: string)
    ensures Get(l, k).None? <==> !Has(l, k)
  {
  }

  lemma {:induction false} MergeSectionsKeepsOrder(into: Assoc<Opts>, from: Assoc<Assoc<Acc>>)
    requires Distinct(from)
    ensures Keys(MergeSections(into, from)) == Keys(into) + NewKeys(into, from)
    decreases |from|
  {
    hide MergeOpts, Put, Distinct, Has, Keys, Get;
    if from == [] {
      Empties(Keys(into));
    } else {
      var front, last := from[..|from| - 1], from[|from| - 1];
      GetLast(from, last.0);
      MergeSectionsKeepsOrder(into, front);
      var before := MergeSections(into, front);
      KeysPut(before, last.0, MergeOpts(OrNone(Get(before, last.0)), last.1));
      HasInKeys(before, last.0);
      HasInKeys(into, last.0);
      NewAreFrom(into, front, last.0);
      Empties(Keys(into) + NewKeys(into, front));
      AppendAppend(Keys(into), NewKeys(into, front), [last.0]);
    }
  }

  // ----- reading a document into a configuration

  /** The lines a document gives an option. */
  function Gives(r: Reading, section: string, key: string): Option<Acc> {
    if section == DEFAULT then Get(r.default, key)
    else
      match Get(r.sections, section)
      case Some(accs) => Get(accs, key)
      case None => None
  }

  lemma {:induction false} GoodGives(r: Reading, section: string)
    requires GoodReading(r)
    ensures Distinct(r.default) && Distinct(r.sections) && !Has(r.sections, DEFAULT)
    ensures Get(r.sections, section).Some? ==> Distinct(Get(r.sections, section).value)
  {
    hide GoodAcc;
    var at := Find(r.sections, section, 0);
    if at.Some? {
      assert GoodAccs(r.sections[at.value].1);
    }
  }

  /**
    Behind a read that succeeded, every option the document defines has the document's value, and every other option
    the value it had; sections and options keep their places, and new ones come behind in the document's order.
  */
  lemma {:induction false} ReadOverrides(cfg: Config, text: string, section: string, key: string)
    requires Read(cfg, text).Ok?
    ensures ReadLines(NOTHING_READ, Lines(text), cfg.noValue).Ok?
    ensures var r, after := ReadLines(NOTHING_READ, Lines(text), cfg.noValue).value, Read(cfg, text).value;
            && Stored(after, section, key) ==
               (match Gives(r, section, key) case Some(acc) => Some(Join(acc)) case None => Stored(cfg, section, key))
            && Keys(after.defaults) == Keys(cfg.defaults) + NewKeys(cfg.defaults, r.default)
            && Keys(after.sections) == Keys(cfg.sections) + NewKeys(cfg.sections, r.sections)
  {
    hide ReadLines, MergeOpts, MergeSections, Get, Join, Lines, Distinct, GoodReading, Keys, NewKeys;
    var r := ReadLines(NOTHING_READ, Lines(text), cfg.noValue).value;
    assert GoodReading(r) by { GoodRead(text, cfg.noValue); }
    GoodGives(r, section);
    MergeKeepsOrder(cfg.defaults, r.default);
    MergeSectionsKeepsOrder(cfg.sections, r.sections);
    if section == DEFAULT {
      MergeOverrides(cfg.defaults, r.default, key);
    } else {
      MergeSectionsOverrides(cfg.sections, r.sections, section);
      if Get(r.sections, section).Some? {
        MergeOverrides(OrNone(Get(cfg.sections, section)), Get(r.sections, section).value, key);
        NoneThere<Value>(key);
      }
    }
  }

  lemma {:induction false} GoodRead(text: string, noValue: bool)
    ensures ReadLines(NOTHING_READ, Lines(text), noValue).Ok? ==>
              GoodReading(ReadLines(NOTHING_READ, Lines(text), noValue).value)
  {
    hide ReadLines, GoodReading;
    LinesAreLines(text);
    if ReadLines(NOTHING_READ, Lines(text), noValue).Ok? {
      GoodLines(Lines(text), noValue);
    }
  }

  /** What a lookup finds: nothing in a section that is not there, else the section's own value or the default. */
  lemma {:induction false} LookupIs(cfg: Config, section: string, key: string)
    requires !Has(cfg.sections, "DEFAULT")
    ensures RawLookup(cfg, section, key) ==
            if section != "DEFAULT" && !Has(cfg.sections, section) then None
            else match Stored(cfg, section, key)
              case Some(v) => Some(v)
              case None => Stored(cfg, "DEFAULT", key)
  {
    hide Get;
    NotGot(cfg.sections, section);
  }

  /**
    What a lookup finds behind a read that succeeded: what the document gives the section, or what the section held,
    or what the document gives `DEFAULT`, or what that held.
  */
  lemma {:induction false} LookupAfterRead(cfg: Config, text: string, section: string, key: string)
    requires Read(cfg, text).Ok? && !Has(cfg.sections, "DEFAULT")
    ensures ReadLines(NOTHING_READ, Lines(text), cfg.noValue).Ok?
    ensures var r, after := ReadLines(NOTHING_READ, Lines(text), cfg.noValue).value, Read(cfg, text).value;
            && (Has(after.sections, section) <==> Has(cfg.sections, section) || Has(r.sections, section))
            && RawLookup(after, section, key) ==
               if section != "DEFAULT" && !Has(cfg.sections, section) && !Has(r.sections, section) then None
               else match Gives(r, section, key)
                 case Some(acc) => Some(Join(acc))
                 case None => match Stored(cfg, section, key)
                   case Some(v) => Some(v)
                   case None => match Gives(r, "DEFAULT", key)
                     case Some(acc) => Some(Join(acc))
                     case None => Stored(cfg, "DEFAULT", key)
  {
    hide Read, ReadLines, Lines, Join, Keys, NewKeys, Gives, Stored, RawLookup, Has;
    ReadOverrides(cfg, text, section, key);
    ReadOverrides(cfg, text, "DEFAULT", key);
    ReadKeepsNames(cfg, text, section);
    ReadKeepsNames(cfg, text, "DEFAULT");
    LookupIs(Read(cfg, text).value, section, key);
  }

  lemma {:induction false} ReadKeepsNames(cfg: Config, text: string, section: string)
    requires Read(cfg, text).Ok?
    ensures ReadLines(NOTHING_READ, Lines(text), cfg.noValue).Ok?
    ensures var r, after := ReadLines(NOTHING_READ, Lines(text), cfg.noValue).value, Read(cfg, text).value;
            && (Has(after.sections, section) <==> Has(cfg.sections, section) || Has(r.sections, section))
            && !Has(r.sections, "DEFAULT")
  {
    hide Read, ReadLines, Lines, Keys, NewKeys, Gives, Stored, Has, GoodReading;
    ReadOverrides(cfg, text, section, "");
    var r, after := ReadLines(NOTHING_READ, Lines(text), cfg.noValue).value, Read(cfg, text).value;
    GoodRead(text, cfg.noValue);
    GoodGives(r, section);
    HasInKeys(after.sections, section);
    HasInKeys(cfg.sections, section);
    NewAreFrom(cfg.sections, r.sections, section);
  }

  /** What a well-written document says of an option. */
  function Says(doc: seq<G.Section>, section: string, key: string): Option<Acc> {
    if section == "DEFAULT" then Get(G.DefaultOf(doc), key)
    else
      match Get(G.SectionsOf(doc), section)
      case Some(accs) => Get(accs, key)
      case None => None
  }

  /** Reading a well-written document succeeds, and gives every option it names the value it gives it, and no other. */
  lemma {:induction false} DocumentOverrides(cfg: Config, doc: seq<G.Section>, section: string, key: string)
    requires G.GoodDocument(doc, cfg.noValue)
    ensures Read(cfg, G.DocumentText(doc)).Ok?
    ensures Stored(Read(cfg, G.DocumentText(doc)).value, section, key) ==
            (match Says(doc, section, key)
             case Some(Some(lines)) => Some(Some(Rstrip(JoinLines(if lines == [] then [""] else lines))))
             case Some(None) => Some(None)
             case None => Stored(cfg, section, key))
  {
    hide ReadLines, MergeOpts, MergeSections, Get, Lines, G.GoodDocument, G.DocumentText, Keys, NewKeys, Rstrip;
    G.DocumentReads(doc, cfg.noValue);
    ReadOverrides(cfg, G.DocumentText(doc), section, key);
    assert JoinLines([""]) == "" && Rstrip("") == "" by { NoText(); }
  }

  lemma {:induction false} NoText()
    ensures JoinLines([""]) == "" && Rstrip("") == ""
  {
  }

  // ----- single changes

  function Without(ks: seq<string>, k: string): seq<string> {
    if ks == [] then []
    else Without(ks[..|ks| - 1], k) + if ks[|ks| - 1] == k then [] else [ks[|ks| - 1]]
  }

  lemma {:induction false} WithoutAbsent(ks: seq<string>, k: string)
    requires k !in ks
    ensures Without(ks, k) == ks
    decreases |ks|
  {
    if ks != [] {
      WithoutAbsent(ks[..|ks| - 1], k);
    }
  }

  /** Removing an entry leaves the others in their order. */
  lemma {:induction false} DelKeepsOrder<V>(l: Assoc<V>, k: string)
    requires Distinct(l)
    ensures Keys(Del(l, k)) == Without(Keys(l), k)
  {
    KeysAt(l);
    KeysAt(Del(l, k));
    hide Keys;
    match Find(l, k, 0)
    case None => WithoutAbsent(Keys(l), k);
    case Some(n) =>
      var ks := Keys(l);
      WithoutOne(ks, n);
      assert Keys(Del(l, k)) == ks[..n] + ks[n + 1..];
  }

  lemma {:induction false} WithoutOne(ks: seq<string>, n: nat)
    requires n < |ks| && forall i :: 0 <= i < |ks| && i != n ==> ks[i] != ks[n]
    ensures Without(ks, ks[n]) == ks[..n] + ks[n + 1..]
    decreases |ks|
  {
    var front := ks[..|ks| - 1];
    if n == |front| {
      WithoutAbsent(front, ks[n]);
    } else {
      WithoutOne(front, n);
      assert front[..n] == ks[..n];
      assert ks[n + 1..] == front[n + 1..] + [ks[|ks| - 1]];
    }
  }

  lemma {:induction false} GetDel<V>(l: Assoc<V>, key: string, k: string)
    requires Distinct(l)
    ensures Get(Del(l, key), k) == if k == key then None else Get(l, k)
  {
    match Find(l, key, 0)
    case None =>
    case Some(n) =>
      var r := Del(l, key);
      assert forall i :: 0 <= i < |r| ==> r[i] == if i < n then l[i] else l[i + 1];
      if k == key {
        assert forall i :: 0 <= i < |r| ==> r[i].0 != k;
      } else {
        GetRest(l, r, n, k);
      }
  }

  lemma {:induction false} GetRest<V>(l: Assoc<V>, r: Assoc<V>, n: nat, k: string)
    requires n < |l| && l[n].0 != k && r == l[..n] + l[n + 1..]
    ensures Get(r, k) == Get(l, k)
  {
    assert forall i :: 0 <= i < |r| ==> r[i] == if i < n then l[i] else l[i + 1];
    match Find(l, k, 0)
    case None => assert forall i :: 0 <= i < |r| ==> r[i].0 != k;
    case Some(m) =>
      var at := if m < n then m else m - 1;
      assert r[at] == l[m];
      assert forall i :: 0 <= i < at ==> r[i].0 != k;
  }

  /** `add_section` takes every name that can be read back and is not there, and changes nothing else. */
  lemma {:induction false} AddSectionDoes(cfg: Config, name: string, section: string, key: string)
    ensures AddSection(cfg, name).Ok? <==>
              && name != "" && name != "DEFAULT" && !Has(cfg.sections, name)
              && forall i :: 0 <= i < |name| ==> name[i] != '\n' && name[i] != '\r'
    ensures AddSection(cfg, name).Ok? ==>
              var after := AddSection(cfg, name).value;
              && Keys(after.sections) == Keys(cfg.sections) + [name] && after.defaults == cfg.defaults
              && Get(after.sections, name) == Some([]) && Stored(after, section, key) == Stored(cfg, section, key)
  {
    hide Get, Put, Keys;
    if AddSection(cfg, name).Ok? {
      KeysPut(cfg.sections, name, []);
      K.GetPut(cfg.sections, name, [], name);
      K.GetPut(cfg.sections, name, [], section);
      NotGot(cfg.sections, name);
      NoneThere<Value>(key);
    }
  }

  /** A name that a line of a document can spell: not empty, nothing to strip, no break, delimiter, mark or bracket. */
  predicate Spellable(key: string) {
    && key != "" && !IsSpace(key[0]) && !IsSpace(key[|key| - 1]) && key[0] !in "[#;"
    && forall i :: 0 <= i < |key| ==> key[i] !in "\n\r=:"
  }

  lemma {:induction false} SpellableIff(key: string)
    ensures Spellable(key) <==> !KeyFault(key)
  {
    hide IsSpace;
    assert forall c: char :: c in "\n\r=:" <==> c == '\n' || c == '\r' || IsDelimiter(c);
    assert forall c: char :: c in "[#;" <==> c == '[' || IsCommentMark(c);
  }

  /** When an option is set or why not, and that the one entry is set, in its place or behind the others. */
  lemma {:induction false} SetDoes(cfg: Config, name: string, option: string, value: Value, admits: string -> bool,
                                   section: string, key: string)
    ensures var r, k := Set(cfg, name, option, value, admits), OptionXform(option);
            if !Spellable(k) then r == Err(BadName)
            else if cfg.interp && value.Some? && !admits(value.value) then r == Err(BadInterpolation)
            else if name != "DEFAULT" && !Has(cfg.sections, name) then r == Err(NoSuchSection)
            else
              && r.Ok?
              && Stored(r.value, section, key) ==
                 (if section == name && key == k then Some(value) else Stored(cfg, section, key))
              && Keys(r.value.sections) == Keys(cfg.sections)
              && Keys(Held(r.value, name)) == Keys(Held(cfg, name)) + (if Has(Held(cfg, name), k) then [] else [k])
  {
    hide Get, Put, Keys, OptionXform, KeyFault, Spellable;
    var k := OptionXform(option);
    SpellableIff(k);
    NotGot(cfg.sections, name);
    KeysPut(Held(cfg, name), k, value);
    Empties(Keys(Held(cfg, name)));
    if name == DEFAULT {
      K.GetPut(cfg.defaults, k, value, key);
    } else if Get(cfg.sections, name).Some? {
      var opts := Get(cfg.sections, name).value;
      KeysPut(cfg.sections, name, Put(opts, k, value));
      K.GetPut(cfg.sections, name, Put(opts, k, value), section);
      K.GetPut(cfg.sections, name, Put(opts, k, value), name);
      K.GetPut(opts, k, value, key);
    }
  }

  /** Removing an option takes that one entry away, if the section is there at all. */
  lemma {:induction false} RemoveOptionDoes(cfg: Config, name: string, option: string, section: string, key: string)
    requires Distinct(Held(cfg, name))
    ensures RemoveOption(cfg, name, option).Ok? <==> name == "DEFAULT" || Has(cfg.sections, name)
    ensures RemoveOption(cfg, name, option).Ok? ==>
              var after := RemoveOption(cfg, name, option).value;
              && Stored(after, section, key) ==
                 (if section == name && key == OptionXform(option) then None else Stored(cfg, section, key))
              && Keys(after.sections) == Keys(cfg.sections)
              && Keys(Held(after, name)) == Without(Keys(Held(cfg, name)), OptionXform(option))
  {
    hide Get, Put, Del, Keys, OptionXform, Distinct;
    var k := OptionXform(option);
    NotGot(cfg.sections, name);
    DelKeepsOrder(Held(cfg, name), k);
    if name == DEFAULT {
      GetDel(cfg.defaults, k, key);
    } else if Get(cfg.sections, name).Some? {
      var opts := Get(cfg.sections, name).value;
      KeysPut(cfg.sections, name, Del(opts, k));
      K.GetPut(cfg.sections, name, Del(opts, k), section);
      K.GetPut(cfg.sections, name, Del(opts, k), name);
      GetDel(opts, k, key);
    }
  }

  /** `remove_section` takes the one section away with its options, and leaves the rest. */
  lemma {:induction false} RemoveSectionDoes(cfg: Config, name: string, section: string, key: string)
    requires Distinct(cfg.sections)
    ensures var after := RemoveSection(cfg, name);
            && Keys(after.sections) == Without(Keys(cfg.sections), name) && after.defaults == cfg.defaults
            && !Has(after.sections, name)
            && (section != name ==> Get(after.sections, section) == Get(cfg.sections, section))
            && (section != name || name == "DEFAULT" ==> Stored(after, section, key) == Stored(cfg, section, key))
  {
    hide Get, Del, Distinct;
    GetDel(cfg.sections, name, section);
    GetDel(cfg.sections, name, name);
    NotGot(Del(cfg.sections, name), name);
    DelKeepsOrder(cfg.sections, name);
  }

  // ----- which names are refused

  /**
    A name is refused by `set` exactly when a line with it would not be read back as that option, save that every
    name with an opening bracket in front is refused. Names are lowered first, and texts have no carriage returns.
  */
  lemma {:induction false} RefusedNamesAreLost(key: string, v: string)
    requires OptionXform(key) == key && '\r' !in key && NoBreak(v) && (key != "" ==> key[0] != '[')
    ensures var blank, text := Config([], [], false, false), "[s]\n" + key + "=" + v + "\n";
            (Read(blank, text).Ok? && Stored(Read(blank, text).value, "s", key).Some?) <==> !KeyFault(key)
  {
    var blank, text := Config([], [], false, false), "[s]\n" + key + "=" + v + "\n";
    if KeyFault(key) {
      if Read(blank, text).Ok? {
        OnlyGoodKeys(blank, text, key);
      }
    } else {
      hide Read, Stored, KeyFault, OptionXform;
      KeptName(key, v);
    }
  }

  /** Every option a read adds has a name that a line can carry. */
  lemma {:induction false} OnlyGoodKeys(cfg: Config, text: string, key: string)
    requires Read(cfg, text).Ok? && Stored(cfg, "s", key).None?
    ensures Stored(Read(cfg, text).value, "s", key).Some? ==> GoodKey(key)
  {
    hide ReadLines, MergeOpts, MergeSections, Get, Lines, Keys, NewKeys, Join, GoodReading;
    ReadOverrides(cfg, text, "s", key);
    var r := ReadLines(NOTHING_READ, Lines(text), cfg.noValue).value;
    assert GoodReading(r) by { GoodRead(text, cfg.noValue); }
    if Gives(r, "s", key).Some? {
      GivenIsGood(r, "s", key);
    }
  }

  lemma {:induction false} GivenIsGood(r: Reading, section: string, key: string)
    requires GoodReading(r) && Gives(r, section, key).Some?
    ensures GoodKey(key)
  {
    hide GoodKey;
    if section == DEFAULT {
      assert GoodAcc(r.default[Find(r.default, key, 0).value]);
    } else {
      var i := Find(r.sections, section, 0).value;
      var accs := r.sections[i].1;
      assert GoodAccs(accs);
      assert GoodAcc(accs[Find(accs, key, 0).value]);
    }
  }

  lemma {:induction false} KeptName(key: string, v: string)
    requires !KeyFault(key) && OptionXform(key) == key && NoBreak(v)
    ensures var blank, text := Config([], [], false, false), "[s]\n" + key + "=" + v + "\n";
            Read(blank, text).Ok? && Stored(Read(blank, text).value, "s", key).Some?
  {
    var blank, text := Config([], [], false, false), "[s]\n" + key + "=" + v + "\n";
    var e := G.Entry("", key, "", '=', Some(v), []);
    var doc := [G.Section("", "s", "", [], [e])];
    assert G.PlainKey(key);
    OneOption(e, doc);
    assert G.DocumentText(doc) == text by { OneText(e, doc, text); }
    hide G.GoodDocument, G.DocumentText;
    DocumentOverrides(blank, doc, "s", key);
    hide Read;
    OneSays(e, doc);
  }

  lemma {:induction false} OneOption(e: G.Entry, doc: seq<G.Section>)
    requires e == G.Entry("", e.key, "", '=', e.value, []) && e.value.Some? && NoBreak(e.value.value)
    requires G.PlainKey(e.key)
    requires doc == [G.Section("", "s", "", [], [e])]
    ensures G.GoodDocument(doc, false)
  {
    hide G.PlainKey;
    assert doc[1..] == [] && [e][1..] == [];
    assert G.GoodEntry(e, false);
    assert G.GoodEntries([], Some(0), false) && G.GoodEntries([e], None, false);
    assert G.GoodSection(doc[0], None, false);
    assert G.GoodSections([], Some(0), false);
  }

  lemma {:induction false} OneText(e: G.Entry, doc: seq<G.Section>, text: string)
    requires e == G.Entry("", e.key, "", '=', e.value, []) && e.value.Some?
    requires doc == [G.Section("", "s", "", [], [e])] && text == "[s]\n" + e.key + "=" + e.value.value + "\n"
    ensures G.DocumentText(doc) == text
  {
    hide G.EntriesText, G.HeadText;
    assert doc[1..] == [];
    var head, entry := "[s]\n", e.key + "=" + e.value.value + "\n";
    OneHead(doc[0]);
    OneEntry(e, entry);
    assert G.DocumentText([]) == "" && G.TailsText([]) == "";
    assert G.SectionText(doc[0]) == head + entry;
    assert head + entry == text;
  }

  lemma {:induction false} OneHead(sec: G.Section)
    requires sec.indent == "" && sec.name == "s" && sec.junk == ""
    ensures G.HeadText(sec) == "[s]\n"
  {
  }

  lemma {:induction false} OneEntry(e: G.Entry, text: string)
    requires e == G.Entry("", e.key, "", '=', e.value, []) && e.value.Some?
    requires text == e.key + "=" + e.value.value + "\n"
    ensures G.EntriesText([e]) == text
  {
    assert [e][1..] == [];
    assert G.EntriesText([]) == "" && G.TailsText([]) == "";
    assert G.EntryText(e) == text;
  }

  lemma {:induction false} OneSays(e: G.Entry, doc: seq<G.Section>)
    requires doc == [G.Section("", "s", "", [], [e])] && OptionXform(e.key) == e.key
    ensures Says(doc, "s", e.key).Some?
  {
    assert doc[1..] == [] && [e][1..] == [];
    assert G.SectionsOf([]) == [] && G.Meanings([]) == [];
    assert G.Meanings([e]) == [G.Meaning(e)];
    assert G.SectionsOf(doc) == [("s", [G.Meaning(e)])];
  }
}
