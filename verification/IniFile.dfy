/** What reading a configuration runs on: an indexed ordered map, the state of a read, and universal newlines. */
module IniFile {
  import opened Bytes
  import opened IniText
  import opened IniModel
  import opened IniRead

  // ----- the indexed map

  /** The index names each entry's position, and nothing else. */
  ghost predicate Indexes<V>(index: map<string, nat>, entries: Assoc<V>) {
    && (forall k :: k in index ==> index[k] < |entries| && entries[index[k]].0 == k)
    && (forall i :: 0 <= i < |entries| ==> entries[i].0 in index && index[entries[i].0] == i)
  }

  lemma {:induction false} IndexFinds<V>(index: map<string, nat>, entries: Assoc<V>, key: string)
    requires Indexes(index, entries)
    ensures Distinct(entries)
    ensures Find(entries, key, 0) == if key in index then Some(index[key]) else None
  {
    var f := Find(entries, key, 0);
    if key in index {
      assert entries[index[key]].0 == key;
      assert f.Some? && entries[f.value].0 == key;
    }
  }

  /** The positions after a removal, fixed up as far as `pos`. */
  ghost predicate FixedTo<V>(index: map<string, nat>, entries: Assoc<V>, from: nat, pos: nat) {
    && (forall k :: k in index ==> exists i :: 0 <= i < |entries| && entries[i].0 == k)
    && (forall i :: 0 <= i < |entries| ==>
          entries[i].0 in index && index[entries[i].0] == if i < from || i < pos then i else i + 1)
  }

  lemma {:induction false} FixedIsIndexed<V>(index: map<string, nat>, entries: Assoc<V>, from: nat)
    requires FixedTo(index, entries, from, |entries|)
    ensures Indexes(index, entries)
  {
    forall k | k in index
      ensures index[k] < |entries| && entries[index[k]].0 == k
    {
      var i :| 0 <= i < |entries| && entries[i].0 == k;
      assert index[entries[i].0] == i;
    }
  }

  class Ordered<V> {
    var entries: Assoc<V>
    var index: map<string, nat>

    ghost predicate Valid()
      reads this
    {
      Indexes(index, entries)
    }

    constructor ()
      ensures Valid() && entries == []
    {
      entries, index := [], map[];
    }

    method Position(key: string) returns (r: Option<nat>)
      requires Valid()
      ensures r == Find(entries, key, 0)
    {
      IndexFinds(index, entries, key);
      r := if key in index then Some(index[key]) else None;
    }

    method Lookup(key: string) returns (r: Option<V>)
      requires Valid()
      ensures r == Get(entries, key)
    {
      var at := Position(key);
      r := if at.Some? then Some(entries[at.value].1) else None;
    }

    /** Upsert: an existing key keeps its place, a new one goes last. */
    method Insert(key: string, value: V) returns (displaced: Option<V>)
      requires Valid()
      modifies this
      ensures Valid() && entries == Put(old(entries), key, value) && displaced == Get(old(entries), key)
    {
      var at := Position(key);
      if at.Some? {
        displaced := Some(entries[at.value].1);
        entries := entries[at.value := (key, value)];
      } else {
        IndexFinds(index, entries, key);
        displaced := None;
        index := index[key := |entries|];
        entries := entries + [(key, value)];
      }
    }

    /** Remove, and move every later entry's recorded position down by one. */
    method Remove(key: string) returns (removed: Option<V>)
      requires Valid()
      modifies this
      ensures Valid() && entries == Del(old(entries), key) && removed == Get(old(entries), key)
    {
      var at := Position(key);
      removed := None;
      if at.Some? {
        var i := at.value;
        removed := Some(entries[i].1);
        Dropped(index, entries, key, i);
        hide Indexes, Distinct, FixedTo;
        index := index - {key};
        entries := entries[..i] + entries[i + 1..];
        FixUp(i);
      }
    }

    method FixUp(from: nat)
      requires from <= |entries| && Distinct(entries) && FixedTo(index, entries, from, from)
      modifies this`index
      ensures Valid()
    {
      var pos := from;
      while pos < |entries|
        invariant from <= pos <= |entries| && FixedTo(index, entries, from, pos)
      {
        FixStep(index, entries, from, pos);
        index := index[entries[pos].0 := pos];
        pos := pos + 1;
      }
      FixedIsIndexed(index, entries, from);
    }
  }

  lemma {:induction false} FixStep<V>(index: map<string, nat>, entries: Assoc<V>, from: nat, pos: nat)
    requires Distinct(entries) && from <= pos < |entries| && FixedTo(index, entries, from, pos)
    ensures FixedTo(index[entries[pos].0 := pos], entries, from, pos + 1)
  {
    var next := index[entries[pos].0 := pos];
    forall i | 0 <= i < |entries|
      ensures entries[i].0 in next && next[entries[i].0] == if i < from || i < pos + 1 then i else i + 1
    {
      assert i != pos ==> entries[i].0 != entries[pos].0;
    }
  }

  function Without<V>(entries: Assoc<V>, i: nat): (rest: Assoc<V>)
    requires i < |entries|
    ensures |rest| == |entries| - 1
            && forall j :: 0 <= j < |rest| ==> rest[j] == if j < i then entries[j] else entries[j + 1]
  {
    entries[..i] + entries[i + 1..]
  }

  lemma {:induction false} Dropped<V>(index: map<string, nat>, entries: Assoc<V>, key: string, i: nat)
    requires Indexes(index, entries) && i < |entries| && entries[i].0 == key
    ensures var rest := entries[..i] + entries[i + 1..]; Distinct(rest) && FixedTo(index - {key}, rest, i, i)
  {
    var rest, less := Without(entries, i), index - {key};
    IndexFinds(index, entries, key);
    hide Without;
    forall k | k in less
      ensures exists j :: 0 <= j < |rest| && rest[j].0 == k
    {
      DroppedKey(index, entries, i, k);
    }
    forall j | 0 <= j < |rest|
      ensures rest[j].0 in less && less[rest[j].0] == if j < i then j else j + 1
    {
      var n := if j < i then j else j + 1;
      assert rest[j] == entries[n] && entries[n].0 != key;
    }
  }

  lemma {:induction false} DroppedKey<V>(index: map<string, nat>, entries: Assoc<V>, i: nat, k: string)
    requires Indexes(index, entries) && i < |entries| && k in index && k != entries[i].0
    ensures exists j :: 0 <= j < |entries| - 1 && Without(entries, i)[j].0 == k
  {
    var n := index[k];
    assert entries[n].0 == k && n != i;
    var j := if n < i then n else n - 1;
    var rest := Without(entries, i);
    assert rest[j] == entries[n];
  }

  // ----- reading

  /** A section of the document being read, as the duplicate check names it. */
  datatype SectionId =
    | DefaultId
    | SectionAt(i: nat)

  predicate Defines(id: SectionId, k: string, default: Assoc<Acc>, sections: Assoc<Assoc<Acc>>) {
    match id
    case DefaultId => Has(default, k)
    case SectionAt(i) => i < |sections| && Has(sections[i].1, k)
  }

  /** `dups` holds exactly the options gathered, `added` exactly the sections. */
  ghost predicate Tracks(dups: set<(SectionId, string)>, added: set<string>, default: Assoc<Acc>,
                         sections: Assoc<Assoc<Acc>>) {
    && (forall id, k :: (id, k) in dups <==> Defines(id, k, default, sections))
    && (forall name :: name in added <==> Has(sections, name))
  }

  lemma {:induction false} TracksNothing()
    ensures Tracks({}, {}, [], [])
  {
  }

  lemma {:induction false} PutHas<V>(l: Assoc<V>, key: string, v: V, k: string)
    requires Has(l, key)
    ensures Has(Put(l, key, v), k) <==> Has(l, k)
  {
    var r := Put(l, key, v);
    assert forall i :: 0 <= i < |l| ==> r[i].0 == l[i].0;
  }

  lemma {:induction false} MoreHas<V>(l: Assoc<V>, key: string, v: V, k: string)
    ensures Has(l + [(key, v)], k) <==> k == key || Has(l, k)
  {
    var r := l + [(key, v)];
    assert r[|l|].0 == key;
    assert forall i :: 0 <= i < |l| ==> r[i] == l[i];
  }

  /** The options a section gathers, replaced. */
  function Regathered(cur: Cur, default: Assoc<Acc>, sections: Assoc<Assoc<Acc>>, opts: Assoc<Acc>): (Assoc<Acc>,
                      Assoc<Assoc<Acc>>) {
    match cur
    case NoSection => (default, sections)
    case InDefault => (opts, sections)
    case InNamed(i) => (default, if i < |sections| then sections[i := (sections[i].0, opts)] else sections)
  }

  lemma {:induction false} SameSections(sections: Assoc<Assoc<Acc>>, i: nat, opts: Assoc<Acc>, name: string)
    requires i < |sections|
    ensures Has(sections[i := (sections[i].0, opts)], name) <==> Has(sections, name)
  {
    var next := sections[i := (sections[i].0, opts)];
    assert forall j :: 0 <= j < |sections| ==> next[j].0 == sections[j].0;
  }

  function IdOf(cur: Cur): SectionId {
    match cur
    case InNamed(i) => SectionAt(i)
    case _ => DefaultId
  }

  /** Changing the current section's options changes what is defined there, and nowhere else. */
  lemma {:induction false} Redefines(cur: Cur, default: Assoc<Acc>, sections: Assoc<Assoc<Acc>>, opts: Assoc<Acc>,
                                     id: SectionId, k: string)
    requires cur != NoSection && (cur.InNamed? ==> cur.at < |sections|)
    ensures var (d, s) := Regathered(cur, default, sections, opts);
            Defines(id, k, d, s) <==> if id == IdOf(cur) then Has(opts, k) else Defines(id, k, default, sections)
  {
    hide Has;
  }

  lemma {:induction false} SameNames(cur: Cur, default: Assoc<Acc>, sections: Assoc<Assoc<Acc>>, opts: Assoc<Acc>,
                                     name: string)
    ensures Has(Regathered(cur, default, sections, opts).1, name) <==> Has(sections, name)
  {
    hide Has;
    if cur.InNamed? && cur.at < |sections| {
      SameSections(sections, cur.at, opts, name);
    }
  }

  lemma {:induction false} TracksPut(dups: set<(SectionId, string)>, added: set<string>, cur: Cur, default: Assoc<Acc>,
                                     sections: Assoc<Assoc<Acc>>, key: string, acc: Acc)
    requires Tracks(dups, added, default, sections) && cur != NoSection && (cur.InNamed? ==> cur.at < |sections|)
    requires var opts := if cur.InNamed? then sections[cur.at].1 else default; Has(opts, key)
    ensures var opts := if cur.InNamed? then sections[cur.at].1 else default;
            var (d, s) := Regathered(cur, default, sections, Put(opts, key, acc));
            Tracks(dups, added, d, s)
  {
    hide Has, Put;
    var opts := if cur.InNamed? then sections[cur.at].1 else default;
    var more := Put(opts, key, acc);
    var (d, s) := Regathered(cur, default, sections, more);
    forall id, k
      ensures Defines(id, k, d, s) <==> Defines(id, k, default, sections)
    {
      Redefines(cur, default, sections, more, id, k);
      PutHas(opts, key, acc, k);
    }
    forall name
      ensures Has(s, name) <==> Has(sections, name)
    {
      SameNames(cur, default, sections, more, name);
    }
  }

  lemma {:induction false} TracksMore(dups: set<(SectionId, string)>, added: set<string>, cur: Cur, default: Assoc<Acc>,
                                      sections: Assoc<Assoc<Acc>>, key: string, acc: Acc)
    requires Tracks(dups, added, default, sections) && cur != NoSection && (cur.InNamed? ==> cur.at < |sections|)
    ensures var opts := if cur.InNamed? then sections[cur.at].1 else default;
            var (d, s) := Regathered(cur, default, sections, opts + [(key, acc)]);
            Tracks(dups + {(IdOf(cur), key)}, added, d, s)
  {
    hide Has;
    var opts := if cur.InNamed? then sections[cur.at].1 else default;
    var more := opts + [(key, acc)];
    var (d, s) := Regathered(cur, default, sections, more);
    forall id, k
      ensures Defines(id, k, d, s) <==> Defines(id, k, default, sections) || (id == IdOf(cur) && k == key)
    {
      Redefines(cur, default, sections, more, id, k);
      MoreHas(opts, key, acc, k);
    }
    forall name
      ensures Has(s, name) <==> Has(sections, name)
    {
      SameNames(cur, default, sections, more, name);
    }
  }

  lemma {:induction false} TracksOpen(dups: set<(SectionId, string)>, added: set<string>, default: Assoc<Acc>,
                                      sections: Assoc<Assoc<Acc>>, name: string)
    requires Tracks(dups, added, default, sections)
    ensures Tracks(dups, added + {name}, default, sections + [(name, [])])
  {
    var next := sections + [(name, [])];
    forall id, k
      ensures Defines(id, k, default, next) <==> Defines(id, k, default, sections)
    {
      if id.SectionAt? && id.i < |next| {
        assert next[id.i] == if id.i < |sections| then sections[id.i] else (name, []);
      }
    }
    hide Has;
    forall other
      ensures Has(next, other) <==> other == name || Has(sections, other)
    {
      MoreHas(sections, name, [], other);
    }
  }

  /** The working state of one read. `dups` and `added` hold what the document has defined so far. */
  class Work {
    var default: Assoc<Acc>
    var sections: Assoc<Assoc<Acc>>
    var dups: set<(SectionId, string)>
    var added: set<string>
    var cur: Cur
    var opt: Option<string>
    var indent: nat
    var faults: nat

    ghost function Value(): Reading
      reads this
    {
      Reading(default, sections, cur, opt, indent, faults)
    }

    ghost predicate Valid()
      reads this
    {
      Tracks(dups, added, default, sections) && (cur.InNamed? ==> cur.at < |sections|)
    }

    constructor ()
      ensures Valid() && Value() == NOTHING_READ
    {
      default, sections, dups, added, cur, opt, indent, faults := [], [], {}, {}, NoSection, None, 0, 0;
      new;
      TracksNothing();
    }

    /** One more line for the option being read; whether it took it. */
    method Push(line: string) returns (pushed: bool)
      requires Valid()
      modifies this
      ensures Valid() && pushed == PushLine(old(Value()), line).Some?
      ensures Value() == if pushed then PushLine(old(Value()), line).value else old(Value())
    {
      hide Tracks, Find;
      if cur == NoSection || opt.None? {
        return false;
      }
      var opts := if cur.InNamed? then sections[cur.at].1 else default;
      var there: Option<Acc> := Get(opts, opt.value);
      if there.None? || there.value.None? {
        return false;
      }
      var more := Some(there.value.value + [line]);
      TracksPut(dups, added, cur, default, sections, opt.value, more);
      if cur.InNamed? {
        sections := sections[cur.at := (sections[cur.at].0, Put(opts, opt.value, more))];
      } else {
        default := Put(opts, opt.value, more);
      }
      return true;
    }

    method Header(name: string) returns (e: Option<Error>)
      requires Valid()
      modifies this
      ensures Says(e, OpenSection(old(Value()), name))
    {
      if name == DEFAULT {
        cur, opt := InDefault, None;
      } else if name in added {
        return Some(DuplicateSection);
      } else {
        TracksOpen(dups, added, default, sections, name);
        hide Tracks;
        added := added + {name};
        sections := sections + [(name, [])];
        cur, opt := InNamed(|sections| - 1), None;
      }
      return None;
    }

    method Option(clean: string, noValue: bool) returns (e: Option<Error>)
      requires Valid() && cur != NoSection
      modifies this
      ensures Says(e, ReadOption(old(Value()), clean, noValue))
    {
      hide ParseOption, OptionXform;
      var parsed := ParseOption(clean, noValue);
      if parsed.None? || OptionXform(parsed.value.0) == "" {
        faults := faults + 1;
        return None;
      }
      var key, acc := OptionXform(parsed.value.0), AccOf(parsed.value.1);
      assert (IdOf(cur), key) in dups <==> Defines(IdOf(cur), key, default, sections);
      if (IdOf(cur), key) in dups {
        return Some(DuplicateOption);
      }
      TracksMore(dups, added, cur, default, sections, key, acc);
      hide Tracks, Find;
      dups := dups + {(IdOf(cur), key)};
      if cur.InNamed? {
        sections := sections[cur.at := (sections[cur.at].0, sections[cur.at].1 + [(key, acc)])];
      } else {
        default := default + [(key, acc)];
      }
      opt := Some(key);
      return None;
    }

    /** The state agrees with the outcome: the new reading, or the error. */
    ghost predicate Says(e: Option<Error>, outcome: Result<Reading>)
      reads this
    {
      match outcome
      case Ok(r) => e.None? && Valid() && Value() == r
      case Err(error) => e == Some(error)
    }

    /** One line of the document. */
    method Line(line: string, noValue: bool) returns (e: Option<Error>)
      requires Valid()
      modifies this
      ensures Says(e, ReadLine(old(Value()), line, noValue))
    {
      hide PushLine, OpenSection, ReadOption, SectionHeader, Strip, SkipSpaces, CurOpts;
      var clean := Strip(line);
      if clean == "" {
        var pushed := Push("");
        return None;
      }
      if IsCommentMark(clean[0]) {
        return None;
      }
      var depth := SkipSpaces(line, 0);
      if cur != NoSection && opt.Some? && depth > indent {
        var pushed := Push(clean);
        return if pushed then None else Some(ContinuesNothing);
      }
      var header := SectionHeader(clean);
      if header.Some? {
        e := Header(header.value);
      } else if cur == NoSection {
        NoCurrent(Value());
        return Some(MissingHeader);
      } else {
        SomeCurrent(Value(), depth);
        indent := depth;
        e := Option(clean, noValue);
      }
    }
  }

  lemma {:induction false} NoCurrent(r: Reading)
    requires r.cur == NoSection
    ensures CurOpts(r).None?
  {
  }

  lemma {:induction false} SomeCurrent(r: Reading, indent: nat)
    requires r.cur != NoSection && (r.cur.InNamed? ==> r.cur.at < |r.sections|)
    ensures CurOpts(r).Some? && CurOpts(r.(indent := indent)) == CurOpts(r)
  {
  }

  // ----- the configuration

  lemma {:induction false} LinesStep(lines: seq<string>, i: nat, noValue: bool)
    requires i < |lines|
    ensures ReadLines(NOTHING_READ, lines[..i + 1], noValue) ==
            match ReadLines(NOTHING_READ, lines[..i], noValue)
            case Ok(r) => ReadLine(r, lines[i], noValue)
            case Err(e) => Err(e)
  {
    hide ReadLine;
    assert lines[..i + 1][..i] == lines[..i];
  }

  /** The first error is the outcome of the whole document. */
  lemma {:induction false} ErrorSticks(lines: seq<string>, i: nat, noValue: bool)
    requires i <= |lines| && ReadLines(NOTHING_READ, lines[..i], noValue).Err?
    ensures ReadLines(NOTHING_READ, lines, noValue) == ReadLines(NOTHING_READ, lines[..i], noValue)
    decreases |lines| - i
  {
    hide ReadLine;
    if i == |lines| {
      assert lines[..i] == lines;
    } else {
      LinesStep(lines, i, noValue);
      ErrorSticks(lines, i + 1, noValue);
    }
  }

  lemma {:induction false} Prefix<T>(s: seq<T>, i: nat)
    requires i < |s|
    ensures s[..i + 1] == s[..i] + [s[i]] && s[..i + 1][..i] == s[..i] && s[..i + 1][i] == s[i]
  {
  }

  // ----- universal newlines

  /** What is left of `s[i..]` once every `\r\n` and lone `\r` is a `\n`. */
  function Universal(s: bytes, i: nat): bytes
    requires i <= |s|
    decreases |s| - i
  {
    if i == |s| then []
    else if s[i] != CR then [s[i]] + Universal(s, i + 1)
    else if i + 1 < |s| && s[i + 1] == LF then [LF] + Universal(s, i + 2)
    else [LF] + Universal(s, i + 1)
  }

  lemma {:induction false} UniversalPlain(s: bytes, i: nat)
    requires i <= |s| && forall k :: i <= k < |s| ==> s[k] != CR
    ensures Universal(s, i) == s[i..]
    decreases |s| - i
  {
    if i < |s| {
      UniversalPlain(s, i + 1);
    }
  }

  lemma {:induction false} UniversalHasNoCr(s: bytes, i: nat)
    requires i <= |s|
    ensures CR !in Universal(s, i)
    decreases |s| - i
  {
    if i < |s| {
      UniversalHasNoCr(s, i + if s[i] == CR && i + 1 < |s| && s[i + 1] == LF then 2 else 1);
    }
  }

  /** Translating twice is translating once. */
  lemma {:induction false} UniversalOnce(s: bytes)
    ensures Universal(Universal(s, 0), 0) == Universal(s, 0)
  {
    UniversalHasNoCr(s, 0);
    var t := Universal(s, 0);
    UniversalPlain(t, 0);
    assert t[0..] == t;
  }

  /** A line, and how it was ended. */
  datatype Row = Row(text: bytes, end: bytes)

  predicate GoodRow(row: Row) {
    && (forall i :: 0 <= i < |row.text| ==> row.text[i] != '\r' as int && row.text[i] != '\n' as int)
    && (row.end == Ascii("\n") || row.end == Ascii("\r") || row.end == Ascii("\r\n"))
  }

  function RowsText(rows: seq<Row>, last: bytes): bytes {
    if rows == [] then last else rows[0].text + rows[0].end + RowsText(rows[1..], last)
  }

  function UnixText(rows: seq<Row>, last: bytes): bytes {
    if rows == [] then last else rows[0].text + Ascii("\n") + UnixText(rows[1..], last)
  }

  /** Good rows and a last line without an end, no `\r` of one row standing against a `\n` of the next. */
  predicate GoodRows(rows: seq<Row>, last: bytes) {
    && (forall i :: 0 <= i < |rows| ==> GoodRow(rows[i])) && GoodRow(Row(last, Ascii("\n")))
    && forall i :: 0 < i < |rows| && rows[i - 1].end == Ascii("\r") ==> rows[i].text + rows[i].end != Ascii("\n")
  }

  lemma {:induction false} Ends()
    ensures Ascii("\n") == [LF] && Ascii("\r") == [CR] && Ascii("\r\n") == [CR, LF]
  {
  }

  lemma {:induction false} UniversalAhead(s: bytes, i: nat, j: nat)
    requires i <= j <= |s| && forall k :: i <= k < j ==> s[k] != CR
    ensures Universal(s, i) == s[i..j] + Universal(s, j)
    decreases j - i
  {
    if i < j {
      UniversalAhead(s, i + 1, j);
      assert s[i..j] == [s[i]] + s[i + 1..j];
      AppendAppend([s[i]], s[i + 1..j], Universal(s, j));
    } else {
      Empties(Universal(s, j));
    }
  }

  lemma {:induction false} EndHere(s: bytes, i: nat, end: bytes)
    requires end == [LF] || end == [CR] || end == [CR, LF]
    requires i + |end| <= |s| && s[i..i + |end|] == end
    requires end == [CR] ==> i + 1 == |s| || s[i + 1] != LF
    ensures Universal(s, i) == [LF] + Universal(s, i + |end|)
  {
    assert s[i] == s[i..i + |end|][0];
    assert |end| == 2 ==> s[i + 1] == s[i..i + |end|][1];
  }

  /** However each line was ended, it is ended by a `\n`, and nothing else changes. */
  lemma {:induction false} EndsAreOne(rows: seq<Row>, last: bytes)
    requires GoodRows(rows, last)
    ensures Universal(RowsText(rows, last), 0) == UnixText(rows, last)
  {
    hide Universal, GoodRows, GoodRow, RowsText, UnixText;
    Empties(RowsText(rows, last));
    EndsFrom([], rows, last);
  }

  lemma {:induction false} EndsFrom(pre: bytes, rows: seq<Row>, last: bytes)
    requires GoodRows(rows, last)
    ensures Universal(pre + RowsText(rows, last), |pre|) == UnixText(rows, last)
    decreases |rows|
  {
    hide Universal, Ascii, GoodRow, GoodRows;
    if rows == [] {
      LastPlain(rows, last);
      UniversalPlain(pre + last, |pre|);
      assert (pre + last)[|pre|..] == last;
    } else {
      var row, rest := rows[0], RowsText(rows[1..], last);
      RowStarts(rows, last);
      EndsFrom(pre + (row.text + row.end), rows[1..], last);
      RowAhead(pre, row, rest);
      Ends();
      AppendAppend(pre, row.text + row.end, rest);
    }
  }

  lemma {:induction false} RowAhead(pre: bytes, row: Row, rest: bytes)
    requires row.end in [[LF], [CR], [CR, LF]] && forall i :: 0 <= i < |row.text| ==> row.text[i] != CR
    requires row.end == [CR] && rest != [] ==> rest[0] != LF
    ensures var before := pre + (row.text + row.end);
            Universal(before + rest, |pre|) == row.text + [LF] + Universal(before + rest, |before|)
  {
    hide Universal;
    var s, i, j := pre + (row.text + row.end) + rest, |pre|, |pre| + |row.text|;
    RowPlaced(pre, row.text, row.end, rest);
    UniversalAhead(s, i, j);
    EndHere(s, j, row.end);
    AppendAppend(row.text, [LF], Universal(s, j + |row.end|));
  }

  lemma {:induction false} RowPlaced(pre: bytes, text: bytes, end: bytes, rest: bytes)
    ensures var s, i, j := pre + (text + end) + rest, |pre|, |pre| + |text|;
            && s[i..j] == text && s[j..j + |end|] == end
            && (forall k :: i <= k < j ==> s[k] == text[k - i])
            && (rest != [] ==> s[j + |end|] == rest[0])
  {
  }

  lemma {:induction false} LastPlain(rows: seq<Row>, last: bytes)
    requires GoodRows(rows, last)
    ensures forall i :: 0 <= i < |last| ==> last[i] != CR && last[i] != LF
  {
  }

  /** What the first row is, and that what follows its `\r` does not begin with a `\n`. */
  lemma {:induction false} RowStarts(rows: seq<Row>, last: bytes)
    requires rows != [] && GoodRows(rows, last)
    ensures GoodRows(rows[1..], last) && rows[0].end in [[LF], [CR], [CR, LF]]
    ensures forall i :: 0 <= i < |rows[0].text| ==> rows[0].text[i] != CR
    ensures var rest := RowsText(rows[1..], last); rows[0].end == [CR] && rest != [] ==> rest[0] != LF
  {
    Ends();
    assert GoodRow(rows[0]);
    var more := rows[1..];
    assert forall i :: 0 <= i < |more| ==> more[i] == rows[i + 1];
    if more == [] {
      LastPlain(rows, last);
    } else {
      assert GoodRow(rows[1]);
      var row := more[0];
      assert RowsText(more, last) == row.text + row.end + RowsText(more[1..], last);
      if rows[0].end == [CR] && row.text == [] {
        Empties(row.end);
        assert row.end != [LF];
      }
    }
  }

  /** In place, the write cursor never passing the read cursor. */
  method NormalizeNewlines(buf: array<byte>) returns (w: nat)
    modifies buf
    ensures w <= buf.Length && buf[..w] == Universal(old(buf[..]), 0)
  {
    hide Universal;
    ghost var was := buf[..];
    if CR !in buf[..] {
      UniversalPlain(was, 0);
      assert was[0..] == was;
      return buf.Length;
    }
    w := 0;
    var r := 0;
    while r < buf.Length
      invariant w <= r <= buf.Length && forall k :: r <= k < buf.Length ==> buf[k] == was[k]
      invariant buf[..w] + Universal(was, r) == Universal(was, 0)
    {
      ghost var done := buf[..w];
      var c, step := buf[r], 1;
      if c == CR {
        step := if r + 1 < buf.Length && buf[r + 1] == LF then 2 else 1;
        c := LF;
      }
      UniversalStep(was, r, done);
      buf[w] := c;
      w, r := w + 1, r + step;
      assert buf[..w] == done + [c];
    }
    UniversalEnd(was);
    Empties(buf[..w]);
  }

  lemma {:induction false} UniversalEnd(s: bytes)
    ensures Universal(s, |s|) == []
  {
  }

  lemma {:induction false} UniversalStep(s: bytes, r: nat, done: bytes)
    requires r < |s|
    ensures var step := if s[r] == CR && r + 1 < |s| && s[r + 1] == LF then 2 else 1;
            done + Universal(s, r) == done + [if s[r] == CR then LF else s[r]] + Universal(s, r + step)
  {
    var step := if s[r] == CR && r + 1 < |s| && s[r + 1] == LF then 2 else 1;
    AppendAppend(done, [if s[r] == CR then LF else s[r]], Universal(s, r + step));
  }
}
