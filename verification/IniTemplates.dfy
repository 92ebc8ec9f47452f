/** A value as its writer means it: text, percent signs, and the values of other options. */
module IniTemplates {
  import opened Bytes
  import opened IniModel
  import opened IniInterp

  datatype Piece =
    | Text(text: string)
    | Percent
    | Ref(name: string)

  type Template = seq<Piece>

  /** The values a section offers, by option name. */
  type Offers = string -> Option<Template>

  predicate GoodPiece(p: Piece) {
    match p
    case Text(t) => '%' !in t
    case Percent => true
    case Ref(name) => name != "" && ')' !in name
  }

  predicate Good(ps: Template) {
    forall i :: 0 <= i < |ps| ==> GoodPiece(ps[i])
  }

  function PieceSpelled(p: Piece): string {
    match p
    case Text(t) => t
    case Percent => "%%"
    case Ref(name) => "%(" + name + ")s"
  }

  function Spelled(ps: Template): string {
    if ps == [] then "" else PieceSpelled(ps[0]) + Spelled(ps[1..])
  }

  predicate AllText(ps: Template) {
    forall i :: 0 <= i < |ps| ==> ps[i].Text?
  }

  /** What a template stands for, references at most ten deep; a value that is only text is no deeper. */
  function Meaning(offers: Offers, ps: Template, depth: nat): Outcome
    decreases 11 - Min(depth, 11), |ps|
  {
    if depth > 10 then Fail(TooDeep)
    else if ps == [] then Done("")
    else
      match ps[0]
      case Text(t) => Behind(t, Meaning(offers, ps[1..], depth))
      case Percent => Behind("%", Meaning(offers, ps[1..], depth))
      case Ref(name) =>
        match offers(OptionXform(name))
        case None => Fail(Missing)
        case Some(qs) =>
          match (if AllText(qs) then Done(Spelled(qs)) else Meaning(offers, qs, depth + 1))
          case Fail(f) => Fail(f)
          case Done(text) => Behind(text, Meaning(offers, ps[1..], depth))
  }

  /** The stored values are the spellings of the templates, and every template is good. */
  ghost predicate Offered(view: View, offers: Offers) {
    forall name ::
      match offers(name)
      case None => view(name) == None
      case Some(ps) => Good(ps) && view(name) == Some(Spelled(ps))
  }

  // ----- spelling

  lemma {:induction false} TextOnly(ps: Template)
    requires Good(ps)
    ensures AllText(ps) <==> '%' !in Spelled(ps)
    decreases |ps|
  {
    if ps != [] {
      var rest := ps[1..];
      TextOnly(rest);
      assert forall i :: 0 < i < |ps| ==> ps[i] == rest[i - 1];
      assert forall i :: 0 <= i < |rest| ==> rest[i] == ps[i + 1];
      assert GoodPiece(ps[0]);
      match ps[0]
      case Text(_) =>
      case Percent => assert Spelled(ps)[0] == '%';
      case Ref(_) => assert Spelled(ps)[0] == '%';
    }
  }

  lemma {:induction false} GoodRest(ps: Template)
    requires Good(ps) && ps != []
    ensures GoodPiece(ps[0]) && Good(ps[1..])
  {
  }

  // ----- substitution, a piece at a time

  /** The text from `i` on, up to `j`, which has no percent sign, is copied. */
  lemma {:induction false} TextAhead(view: View, s: string, i: nat, j: nat, depth: nat)
    requires i <= j <= |s| && '%' !in s[i..j] && depth <= MAX_DEPTH
    ensures Subst(view, s, i, depth) == Behind(s[i..j], Subst(view, s, j, depth))
  {
    hide OptionXform, KeyRef;
    assert forall k :: i <= k < j ==> s[k] == s[i..j][k - i];
    match FindFrom(s, '%', j)
    case None =>
      assert FindFrom(s, '%', i).None?;
      assert s[i..] == s[i..j] + s[j..];
    case Some(p) =>
      assert FindFrom(s, '%', i) == Some(p);
      assert s[i..p] == s[i..j] + s[j..p];
      SplitBehind(view, s, i, j, p, depth);
  }

  lemma {:induction false} SplitBehind(view: View, s: string, i: nat, j: nat, p: nat, depth: nat)
    requires i <= j <= p < |s| && s[i..p] == s[i..j] + s[j..p] && depth <= MAX_DEPTH
    requires FindFrom(s, '%', i) == Some(p) && FindFrom(s, '%', j) == Some(p)
    ensures Subst(view, s, i, depth) == Behind(s[i..j], Subst(view, s, j, depth))
  {
    hide OptionXform, KeyRef, FindFrom;
    var lit, mid := s[i..j], s[j..p];
    if p + 1 < |s| && s[p + 1] == '%' {
      AppendAppend(lit, mid, "%");
      BehindBehind(lit, mid + "%", Subst(view, s, p + 2, depth));
    } else if p + 1 < |s| && s[p + 1] == '(' && KeyRef(s, p).Some? {
      var (name, end) := KeyRef(s, p).value;
      var value := view(OptionXform(name));
      if value.Some? {
        var inner :=
          if FindFrom(value.value, '%', 0).Some? then Subst(view, value.value, 0, depth + 1) else Done(value.value);
        if inner.Done? {
          AppendAppend(lit, mid, inner.text);
          BehindBehind(lit, mid + inner.text, Subst(view, s, end, depth));
        }
      }
    }
  }

  lemma {:induction false} PercentHere(view: View, s: string, i: nat, depth: nat)
    requires i + 2 <= |s| && s[i..i + 2] == "%%" && depth <= MAX_DEPTH
    ensures Subst(view, s, i, depth) == Behind("%", Subst(view, s, i + 2, depth))
  {
    hide OptionXform, KeyRef;
    assert s[i] == s[i..i + 2][0] && s[i + 1] == s[i..i + 2][1];
    assert FindFrom(s, '%', i) == Some(i);
    assert s[i..i] + "%" == "%";
  }

  lemma {:induction false} RefHere(s: string, i: nat, name: string)
    requires name != "" && ')' !in name
    requires i + |name| + 4 <= |s| && s[i..i + |name| + 4] == "%(" + name + ")s"
    ensures FindFrom(s, '%', i) == Some(i) && s[i + 1] == '(' && KeyRef(s, i) == Some((name, i + |name| + 4))
  {
    hide FindFrom;
    var text, n := "%(" + name + ")s", |name|;
    RefParts(name);
    TextAt(s, i, text, 0);
    TextAt(s, i, text, 1);
    TextAt(s, i, text, n + 2);
    TextAt(s, i, text, n + 3);
    SliceAt(s, i, text, 2, n + 2);
    ClosesAt(s, i + 2, i + n + 2);
    FoundAtOnce(s, i);
  }

  lemma {:induction false} RefParts(name: string)
    ensures var text, n := "%(" + name + ")s", |name|;
            && |text| == n + 4 && text[0] == '%' && text[1] == '(' && text[2..n + 2] == name
            && text[n + 2] == ')' && text[n + 3] == 's'
  {
    var text, n := "%(" + name + ")s", |name|;
    assert text[n + 2] == ")s"[0] && text[n + 3] == ")s"[1];
  }

  lemma {:induction false} SliceAt(s: string, i: nat, text: string, a: nat, b: nat)
    requires i + |text| <= |s| && s[i..i + |text|] == text && a <= b <= |text|
    ensures s[i + a..i + b] == text[a..b]
  {
    var left, right := s[i + a..i + b], text[a..b];
    forall k | 0 <= k < b - a ensures left[k] == right[k] {
      TextAt(s, i, text, a + k);
    }
  }

  lemma {:induction false} TextAt(s: string, i: nat, text: string, k: nat)
    requires i + |text| <= |s| && s[i..i + |text|] == text && k < |text|
    ensures s[i + k] == text[k]
  {
  }

  lemma {:induction false} FoundAtOnce(s: string, i: nat)
    requires i < |s| && s[i] == '%'
    ensures FindFrom(s, '%', i) == Some(i)
  {
  }

  lemma {:induction false} ClosesAt(s: string, i: nat, j: nat)
    requires i <= j < |s| && s[j] == ')' && ')' !in s[i..j]
    ensures FindFrom(s, ')', i) == Some(j)
  {
    assert forall k :: i <= k < j ==> s[k] == s[i..j][k - i];
  }

  lemma {:induction false} RefReads(view: View, s: string, i: nat, depth: nat, name: string)
    requires name != "" && ')' !in name && depth <= MAX_DEPTH
    requires i + |name| + 4 <= |s| && s[i..i + |name| + 4] == "%(" + name + ")s"
    ensures Subst(view, s, i, depth) ==
            match view(OptionXform(name))
            case None => Fail(Missing)
            case Some(value) =>
              match (if FindFrom(value, '%', 0).Some? then Subst(view, value, 0, depth + 1) else Done(value))
              case Fail(f) => Fail(f)
              case Done(text) => Behind(text, Subst(view, s, i + |name| + 4, depth))
  {
    hide OptionXform, KeyRef, FindFrom;
    RefHere(s, i, name);
    assert forall text: string :: s[i..i] + text == text;
  }

  /** What a reference stands for, before the rest. */
  function RefMeaning(offers: Offers, name: string, depth: nat): Outcome {
    match offers(OptionXform(name))
    case None => Fail(Missing)
    case Some(qs) => if AllText(qs) then Done(Spelled(qs)) else Meaning(offers, qs, depth + 1)
  }

  /** A piece's own meaning. */
  function PieceMeaning(offers: Offers, p: Piece, depth: nat): Outcome {
    match p
    case Text(t) => Done(t)
    case Percent => Done("%")
    case Ref(name) => RefMeaning(offers, name, depth)
  }

  function Before(o: Outcome, rest: Outcome): Outcome {
    match o
    case Fail(f) => Fail(f)
    case Done(text) => Behind(text, rest)
  }

  lemma {:induction false} MeaningStep(offers: Offers, ps: Template, depth: nat)
    requires depth <= 10 && ps != []
    ensures Meaning(offers, ps, depth) ==
            Before(PieceMeaning(offers, ps[0], depth), Meaning(offers, ps[1..], depth))
  {
    hide AllText, OptionXform;
  }

  /** A reference, its value's meaning given. */
  lemma {:induction false} RefStep(view: View, offers: Offers, s: string, i: nat, depth: nat, name: string)
    requires Offered(view, offers) && name != "" && ')' !in name && depth <= 10
    requires i + |name| + 4 <= |s| && s[i..i + |name| + 4] == "%(" + name + ")s"
    requires var qs := offers(OptionXform(name));
             qs.Some? && !AllText(qs.value) ==>
               Subst(view, Spelled(qs.value), 0, depth + 1) == Meaning(offers, qs.value, depth + 1)
    ensures Subst(view, s, i, depth) ==
            Before(RefMeaning(offers, name, depth), Subst(view, s, i + |name| + 4, depth))
  {
    hide OptionXform, KeyRef, FindFrom, Offered, Subst, Spelled, AllText, Good, Meaning;
    RefReads(view, s, i, depth, name);
    Referred(view, offers, OptionXform(name));
  }

  lemma {:induction false} PieceStep(view: View, offers: Offers, s: string, i: nat, depth: nat, p: Piece)
    requires Offered(view, offers) && GoodPiece(p) && depth <= 10
    requires i + |PieceSpelled(p)| <= |s| && s[i..i + |PieceSpelled(p)|] == PieceSpelled(p)
    requires p.Ref? ==>
               var qs := offers(OptionXform(p.name));
               qs.Some? && !AllText(qs.value) ==>
                 Subst(view, Spelled(qs.value), 0, depth + 1) == Meaning(offers, qs.value, depth + 1)
    ensures Subst(view, s, i, depth) ==
            Before(PieceMeaning(offers, p, depth), Subst(view, s, i + |PieceSpelled(p)|, depth))
  {
    hide OptionXform, KeyRef, FindFrom, Offered, Subst, Spelled, AllText, Meaning, RefMeaning;
    match p
    case Text(t) => TextAhead(view, s, i, i + |t|, depth);
    case Percent => PercentHere(view, s, i, depth);
    case Ref(name) => RefStep(view, offers, s, i, depth, name);
  }

  /** From where its spelling begins, a template substitutes to its meaning. */
  lemma {:induction false} SpelledFrom(view: View, offers: Offers, pre: string, ps: Template, depth: nat)
    requires Offered(view, offers) && Good(ps)
    ensures Subst(view, pre + Spelled(ps), |pre|, depth) == Meaning(offers, ps, depth)
    decreases 11 - Min(depth, 11), |ps|
  {
    hide OptionXform, Offered, Subst, PieceSpelled, Meaning, AllText, GoodPiece;
    if depth > 10 {
      Deep(view, pre + Spelled(ps), |pre|, depth);
      DeepMeaning(offers, ps, depth);
    } else if ps == [] {
      NothingLeft(view, pre, depth);
      NothingMeant(offers, depth);
    } else {
      GoodRest(ps);
      var piece, rest := PieceSpelled(ps[0]), Spelled(ps[1..]);
      AppendAppend(pre, piece, rest);
      SpelledFrom(view, offers, pre + piece, ps[1..], depth);
      MeaningStep(offers, ps, depth);
      var s := pre + Spelled(ps);
      Placed(pre, piece, rest);
      hide Spelled, Good;
      if ps[0].Ref? {
        Referred(view, offers, OptionXform(ps[0].name));
        var qs := offers(OptionXform(ps[0].name));
        if qs.Some? && !AllText(qs.value) {
          SpelledFrom(view, offers, "", qs.value, depth + 1);
          Empties(Spelled(qs.value));
        }
      }
      PieceStep(view, offers, s, |pre|, depth, ps[0]);
    }
  }

  lemma {:induction false} Placed(pre: string, piece: string, rest: string)
    ensures var s := pre + (piece + rest); |pre| + |piece| <= |s| && s[|pre|..|pre| + |piece|] == piece
  {
  }

  lemma {:induction false} DeepMeaning(offers: Offers, ps: Template, depth: nat)
    requires depth > 10
    ensures Meaning(offers, ps, depth) == Fail(TooDeep)
  {
  }

  lemma {:induction false} NothingMeant(offers: Offers, depth: nat)
    requires depth <= 10
    ensures Meaning(offers, [], depth) == Done("")
  {
  }

  lemma {:induction false} PieceIs(p: Piece)
    ensures PieceSpelled(p) == match p case Text(t) => t case Percent => "%%" case Ref(name) => "%(" + name + ")s"
  {
  }

  lemma {:induction false} Deep(view: View, s: string, i: nat, depth: nat)
    requires i <= |s| && depth > 10
    ensures Subst(view, s, i, depth) == Fail(TooDeep)
  {
  }

  lemma {:induction false} NothingLeft(view: View, pre: string, depth: nat)
    requires depth <= 10
    ensures Subst(view, pre + "", |pre|, depth) == Done("")
  {
    assert FindFrom(pre + "", '%', |pre|).None?;
  }

  /** A reference finds nothing, or the spelling of a good template, searched further when it is not only text. */
  lemma {:induction false} Referred(view: View, offers: Offers, name: string)
    requires Offered(view, offers)
    ensures offers(name).None? <==> view(name).None?
    ensures offers(name).Some? ==>
              var qs := offers(name).value;
              Good(qs) && view(name) == Some(Spelled(qs)) && (FindFrom(Spelled(qs), '%', 0).None? <==> AllText(qs))
  {
    if offers(name).Some? {
      var qs := offers(name).value;
      TextOnly(qs);
    }
  }

  // ----- every readable value is a spelling

  lemma {:induction false} FromPieces(s: string, i: nat) returns (ps: Template)
    requires i <= |s| && WellFormed(s, i)
    ensures Good(ps) && Spelled(ps) == s[i..]
    decreases |s| - i
  {
    hide KeyRef, Good, Spelled, PieceSpelled, GoodPiece;
    match FindFrom(s, '%', i)
    case None =>
      ps := [Text(s[i..])];
      LastPiece(s[i..]);
    case Some(p) =>
      if s[p + 1] == '%' {
        PieceIs(Percent);
        assert GoodPiece(Percent) by { EscapeIsGood(); }
        assert s[p..p + 2] == "%%";
        var rest := FromPieces(s, p + 2);
        ps := Prepend(s, i, p, p + 2, Percent, rest);
      } else {
        var (name, end) := KeyRef(s, p).value;
        RefIs(s, p);
        var rest := FromPieces(s, end);
        ps := Prepend(s, i, p, end, Ref(name), rest);
      }
  }

  lemma {:induction false} EscapeIsGood()
    ensures GoodPiece(Percent)
  {
  }

  lemma {:induction false} LastPiece(t: string)
    requires '%' !in t
    ensures Good([Text(t)]) && Spelled([Text(t)]) == t
  {
    OnePiece(Text(t));
  }

  lemma {:induction false} Prepend(s: string, i: nat, p: nat, end: nat, q: Piece, rest: Template) returns (ps: Template)
    requires i <= p <= end <= |s| && '%' !in s[i..p] && GoodPiece(q) && PieceSpelled(q) == s[p..end]
    requires Good(rest) && Spelled(rest) == s[end..]
    ensures Good(ps) && Spelled(ps) == s[i..]
  {
    hide Spelled, PieceSpelled;
    ps := [Text(s[i..p]), q] + rest;
    TwoPieces(Text(s[i..p]), q, rest);
    PieceIs(Text(s[i..p]));
    assert s[i..] == s[i..p] + (s[p..end] + s[end..]);
  }

  lemma {:induction false} OnePiece(p: Piece)
    ensures Spelled([p]) == PieceSpelled(p)
  {
    assert [p][1..] == [];
    Empties(PieceSpelled(p));
  }

  lemma {:induction false} TwoPieces(p: Piece, q: Piece, rest: Template)
    ensures Spelled([p, q] + rest) == PieceSpelled(p) + (PieceSpelled(q) + Spelled(rest))
  {
    hide PieceSpelled;
    var ps := [p, q] + rest;
    assert ps[1..] == [q] + rest && ps[1..][1..] == rest;
  }

  lemma {:induction false} RefIs(s: string, p: nat)
    requires p + 2 <= |s| && s[p] == '%' && s[p + 1] == '(' && KeyRef(s, p).Some?
    ensures var (name, end) := KeyRef(s, p).value;
            GoodPiece(Ref(name)) && s[p..end] == PieceSpelled(Ref(name))
  {
    var (name, end) := KeyRef(s, p).value;
    assert s[p..p + 2] == "%(" && s[p + 2..end - 2] == name && s[end - 2..end] == ")s";
    InThree(s, p, p + 2, end - 2, end);
  }

  lemma {:induction false} InThree(s: string, a: nat, b: nat, c: nat, d: nat)
    requires a <= b <= c <= d <= |s|
    ensures s[a..d] == s[a..b] + s[b..c] + s[c..d]
  {
  }

  /** A value that can be read is the spelling of some template: nothing else is read. */
  lemma {:induction false} ReadableIsSpelled(view: View, value: string)
    requires BeforeGet(view, value).Done?
    ensures exists ps: Template :: Good(ps) && Spelled(ps) == value
  {
    hide Interpolate, WellFormed;
    ReadableIsWellFormed(view, value, 0, 1, "");
    var ps := FromPieces(value, 0);
    assert value[0..] == value;
  }

  /**
    Reading an option gives what its template means, or fails: it fails whenever the meaning does, and never when
    the meaning is at most a mebibyte.
  */
  lemma {:induction false} TemplateReads(view: View, offers: Offers, ps: Template)
    requires Offered(view, offers) && Good(ps)
    ensures var m := Meaning(offers, ps, 1);
            && Subst(view, Spelled(ps), 0, 1) == m
            && (m.Done? && Size(m.text) <= 1024 * 1024 ==> BeforeGet(view, Spelled(ps)) == m)
            && (BeforeGet(view, Spelled(ps)).Done? ==> m == BeforeGet(view, Spelled(ps)))
            && (m.Fail? ==> BeforeGet(view, Spelled(ps)).Fail?)
  {
    hide Interpolate, Subst, Meaning, Size;
    Empties(Spelled(ps));
    SpelledFrom(view, offers, "", ps, 1);
    var m := Meaning(offers, ps, 1);
    if BeforeGet(view, Spelled(ps)).Done? {
      InterpolateSubstitutes(view, Spelled(ps), 0, 1, "");
      Nothing(m);
    }
    if m.Done? && Size(m.text) <= 1024 * 1024 {
      Empties(m.text);
      SmallResultsSucceed(view, Spelled(ps), 0, 1, "");
    }
  }

  lemma {:induction false} Nothing(o: Outcome)
    ensures Behind("", o) == o
  {
    if o.Done? {
      Empties(o.text);
    }
  }
}
