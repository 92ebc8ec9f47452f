/** Configurations as ordered association lists, and the operations that change them. */
module IniModel {
  import opened Bytes
  import opened IniText

  // ----- ordered association lists

  type Assoc<V> = seq<(string, V)>

  function Find<V>(l: Assoc<V>, k: string, i: nat): (r: Option<nat>)
    requires i <= |l|
    ensures r.Some? ==> i <= r.value < |l| && l[r.value].0 == k && forall j :: i <= j < r.value ==> l[j].0 != k
    ensures r.None? ==> forall j :: i <= j < |l| ==> l[j].0 != k
    decreases |l| - i
  {
    if i == |l| then None else if l[i].0 == k then Some(i) else Find(l, k, i + 1)
  }

  function Get<V>(l: Assoc<V>, k: string): Option<V> {
    match Find(l, k, 0)
    case None => None
    case Some(i) => Some(l[i].1)
  }

  predicate Has<V>(l: Assoc<V>, k: string) {
    Find(l, k, 0).Some?
  }

  /** Replace in place, or append. */
  function Put<V>(l: Assoc<V>, k: string, v: V): Assoc<V> {
    match Find(l, k, 0)
    case None => l + [(k, v)]
    case Some(i) => l[i := (k, v)]
  }

  function Del<V>(l: Assoc<V>, k: string): Assoc<V> {
    match Find(l, k, 0)
    case None => l
    case Some(i) => l[..i] + l[i + 1..]
  }

  predicate Distinct<V>(l: Assoc<V>) {
    forall i, j :: 0 <= i < j < |l| ==> l[i].0 != l[j].0
  }

  lemma {:induction false} PutDistinct<V>(l: Assoc<V>, k: string, v: V)
    requires Distinct(l)
    ensures Distinct(Put(l, k, v))
    ensures Get(Put(l, k, v), k) == Some(v)
  {
    var i := Find(l, k, 0);
    var r := Put(l, k, v);
    match i
    case None => assert r[|l|] == (k, v);
    case Some(n) => assert r[n] == (k, v);
  }

  lemma {:induction false} DelDistinct<V>(l: Assoc<V>, k: string)
    requires Distinct(l)
    ensures Distinct(Del(l, k)) && !Has(Del(l, k), k)
  {
    if Find(l, k, 0).Some? {
      var n := Find(l, k, 0).value;
      var r := Del(l, k);
      assert forall i :: 0 <= i < |r| ==> r[i] == if i < n then l[i] else l[i + 1];
    }
  }

  lemma {:induction false} GetAt<V>(l: Assoc<V>, i: nat)
    requires Distinct(l) && i < |l|
    ensures Find(l, l[i].0, 0) == Some(i) && Get(l, l[i].0) == Some(l[i].1)
  {
  }

  lemma {:induction false} PutNew<V>(l: Assoc<V>, k: string, v: V)
    requires forall i :: 0 <= i < |l| ==> l[i].0 != k
    ensures Put(l, k, v) == l + [(k, v)]
  {
  }

  // ----- configurations

  type Value = Option<string>
  type Opts = Assoc<Value>

  const DEFAULT: string := "DEFAULT"

  datatype Config = Config(defaults: Opts, sections: Assoc<Opts>, noValue: bool, interp: bool)

  datatype Error =
    | BadName
    | SectionExists
    | NoSuchSection
    | BadInterpolation
    | ContinuesNothing
    | MissingHeader
    | DuplicateSection
    | DuplicateOption
    | Syntax

  datatype Result<+T> =
    | Ok(value: T)
    | Err(error: Error)

  function LowerChar(c: char): char {
    if 'A' <= c <= 'Z' then c - 'A' + 'a' else c
  }

  /** Option names are case-insensitive. */
  function OptionXform(s: string): (r: string)
    ensures |r| == |s|
  {
    seq(|s|, i requires 0 <= i < |s| => LowerChar(s[i]))
  }

  predicate IsDelimiter(c: char) {
    c == '=' || c == ':'
  }

  predicate IsCommentMark(c: char) {
    c == '#' || c == ';'
  }

  /** A name that would not be read back as itself. */
  predicate KeyFault(key: string) {
    || key == ""
    || (exists i :: 0 <= i < |key| && (key[i] == '\n' || key[i] == '\r' || IsDelimiter(key[i])))
    || IsSpace(key[0]) || IsSpace(key[|key| - 1])
    || key[0] == '[' || IsCommentMark(key[0])
  }

  predicate SectionFault(name: string) {
    name == "" || exists i :: 0 <= i < |name| && (name[i] == '\n' || name[i] == '\r')
  }

  function AddSection(cfg: Config, name: string): Result<Config> {
    if SectionFault(name) || name == DEFAULT then Err(BadName)
    else if Has(cfg.sections, name) then Err(SectionExists)
    else Ok(cfg.(sections := Put(cfg.sections, name, [])))
  }

  /** Change one section's options, `DEFAULT` among them. */
  function InSection(cfg: Config, section: string, f: Opts -> Opts): Result<Config> {
    if section == DEFAULT then Ok(cfg.(defaults := f(cfg.defaults)))
    else
      match Get(cfg.sections, section)
      case None => Err(NoSuchSection)
      case Some(opts) => Ok(cfg.(sections := Put(cfg.sections, section, f(opts))))
  }

  /** `admits` says whether interpolation could later read the value. */
  function Set(cfg: Config, section: string, option: string, value: Value, admits: string -> bool): Result<Config> {
    var key := OptionXform(option);
    if KeyFault(key) then Err(BadName)
    else if cfg.interp && value.Some? && !admits(value.value) then Err(BadInterpolation)
    else InSection(cfg, section, opts => Put(opts, key, value))
  }

  function RemoveSection(cfg: Config, name: string): Config {
    cfg.(sections := Del(cfg.sections, name))
  }

  function RemoveOption(cfg: Config, section: string, option: string): Result<Config> {
    InSection(cfg, section, opts => Del(opts, OptionXform(option)))
  }

  /** Section over DEFAULT; a section that does not exist inherits nothing. */
  function RawLookup(cfg: Config, section: string, key: string): Option<Value> {
    match Get(cfg.sections, section)
    case Some(opts) => (match Get(opts, key) case Some(v) => Some(v) case None => Get(cfg.defaults, key))
    case None => if section == DEFAULT then Get(cfg.defaults, key) else None
  }
}
