/** Configuration: documents of two value shapes, merged from first to last, then
  * interpolated. Models `ConfigDocument`, `ConfigBuilder::build_with_environment`,
  * `resolve_variable` and `exact_variable_name` of crates/mads-core/src/config.rs.
  *
  * What reading a dotenv file or the environment gives is an input; `TomlFiles`
  * makes sources.
  */
module ConfigMerge {
  import opened Wrappers
  import opened Orders

  datatype Value = Scalar(text: string) | StringArray(elements: seq<string>)

  datatype Document = Document(scalars: map<string, string>, arrays: map<string, seq<string>>, tables: set<string>)

  datatype Origin = Origin(name: string, relativePathBase: Option<string>)

  /** `document` is absent if the source cannot be loaded. */
  datatype Source = Source(origin: Origin, document: Option<Document>)

  /** An entry is absent if its line does not parse. */
  datatype DotenvFile = Missing | Unreadable | Lines(entries: seq<Option<(string, string)>>)

  datatype Dotenv = Dotenv(required: bool, file: DotenvFile)

  /** A part of an environment entry is absent if it is not Unicode. */
  type EnvironmentEntry = (Option<string>, Option<string>)

  datatype Attributed<T> = Attributed(value: T, origin: Origin)

  datatype Config = Config(
    values: map<string, Attributed<string>>,
    arrays: map<string, Attributed<seq<string>>>,
    tables: map<string, Origin>)

  datatype BuildError =
    | DotenvFailed(index: nat)
    | SourceFailed(index: nat)
    | MissingVariable(key: string, variable: string)

  // ----- documents -----

  /** What a document says about a key. */
  function Declared(d: Document, key: string): Option<Value> {
    if key in d.arrays then Some(StringArray(d.arrays[key]))
    else if key in d.scalars then Some(Scalar(d.scalars[key]))
    else None
  }

  class ConfigDocument {
    var scalars: map<string, string>
    var arrays: map<string, seq<string>>
    var tables: set<string>

    ghost predicate Valid()
      reads this
    {
      scalars.Keys !! arrays.Keys
    }

    function View(): Document
      reads this
    {
      Document(scalars, arrays, tables)
    }

    constructor FromScalars(values: map<string, string>)
      ensures Valid() && View() == Document(values, map[], {})
    {
      scalars, arrays, tables := values, map[], {};
    }

    method InsertScalar(key: string, value: string)
      requires Valid()
      modifies this
      ensures Valid() && tables == old(tables)
      ensures forall k :: Declared(View(), k) == if k == key then Some(Scalar(value)) else old(Declared(View(), k))
    {
      arrays := arrays - {key};
      scalars := scalars[key := value];
    }

    method InsertStringArray(key: string, values: seq<string>)
      requires Valid()
      modifies this
      ensures Valid() && tables == old(tables)
      ensures forall k ::
        Declared(View(), k) == if k == key then Some(StringArray(values)) else old(Declared(View(), k))
    {
      scalars := scalars - {key};
      arrays := arrays[key := values];
    }

    method InsertTable(key: string)
      requires Valid()
      modifies `tables
      ensures Valid() && tables == old(tables) + {key}
    {
      tables := tables + {key};
    }

    /** Every declared key counts once. */
    method Len() returns (n: nat)
      requires Valid()
      ensures n == |set k | k in scalars.Keys + arrays.Keys && Declared(View(), k).Some?|
    {
      n := |scalars| + |arrays|;
      assert (set k | k in scalars.Keys + arrays.Keys && Declared(View(), k).Some?) == scalars.Keys + arrays.Keys;
    }
  }

  // ----- placeholders -----

  predicate OccursAt(s: string, part: string, i: nat) {
    i + |part| <= |s| && s[i..i + |part|] == part
  }

  predicate ContainsText(s: string, part: string) {
    exists i | 0 <= i <= |s| :: OccursAt(s, part, i)
  }

  predicate IsVariableName(v: string) {
    v != "" && !ContainsText(v, "${") && '}' !in v && !ContainsText(v, ":-")
  }

  function ExactVariableName(value: string): Option<string> {
    if |value| < 3 || value[..2] != "${" || value[|value| - 1] != '}' then None
    else
      var variable := value[2..|value| - 1];
      if IsVariableName(variable) then Some(variable) else None
  }

  /** Placeholders are read back exactly, and nothing else is one. */
  lemma PlaceholderExactly(value: string, variable: string)
    ensures ExactVariableName(value) == Some(variable) <==> value == "${" + variable + "}" && IsVariableName(variable)
  {
    if value == "${" + variable + "}" && IsVariableName(variable) {
      assert value[..2] == "${" && value[2..|value| - 1] == variable;
    }
    if ExactVariableName(value) == Some(variable) {
      assert value == value[..2] + value[2..|value| - 1] + [value[|value| - 1]];
    }
  }

  /** The text with its placeholder replaced, or the name that is not defined. */
  function ResolveText(text: string, variables: map<string, string>): Result<string, string> {
    var name := ExactVariableName(text);
    if name.None? then Success(text)
    else if name.value in variables then Success(variables[name.value])
    else Failure(name.value)
  }

  function ResolveElements(elements: seq<string>, variables: map<string, string>): Result<seq<string>, string> {
    if elements == [] then Success([])
    else
      var before := ResolveElements(elements[..|elements| - 1], variables);
      var last := ResolveText(elements[|elements| - 1], variables);
      if before.Failure? then before
      else if last.Failure? then Failure(last.error)
      else Success(before.value + [last.value])
  }

  function ResolveValue(v: Value, variables: map<string, string>): Result<Value, string> {
    match v
    case Scalar(text) =>
      var r := ResolveText(text, variables);
      if r.Success? then Success(Scalar(r.value)) else Failure(r.error)
    case StringArray(elements) =>
      var r := ResolveElements(elements, variables);
      if r.Success? then Success(StringArray(r.value)) else Failure(r.error)
  }

  /** The first element that is an undefined placeholder. */
  ghost predicate FirstUndefined(elements: seq<string>, variables: map<string, string>, i: nat, variable: string) {
    i < |elements| && ResolveText(elements[i], variables) == Failure(variable)
    && forall j | 0 <= j < i :: ResolveText(elements[j], variables).Success?
  }

  ghost predicate ElementsResolved(elements: seq<string>, variables: map<string, string>,
                                   r: Result<seq<string>, string>)
  {
    match r
    case Success(resolved) =>
      |resolved| == |elements|
      && forall i | 0 <= i < |elements| :: ResolveText(elements[i], variables) == Success(resolved[i])
    case Failure(variable) =>
      exists i: nat :: FirstUndefined(elements, variables, i, variable)
  }

  /** An array fails at its first undefined placeholder and is otherwise resolved element by element. */
  lemma {:induction false} ResolveElementsExactly(elements: seq<string>, variables: map<string, string>)
    ensures ElementsResolved(elements, variables, ResolveElements(elements, variables))
  {
    if elements != [] {
      var n: nat := |elements| - 1;
      var before := ResolveElements(elements[..n], variables);
      ResolveElementsExactly(elements[..n], variables);
      if before.Failure? {
        var i: nat :| FirstUndefined(elements[..n], variables, i, before.error);
        assert FirstUndefined(elements, variables, i, before.error);
      } else {
        forall j | 0 <= j < n ensures ResolveText(elements[j], variables) == Success(before.value[j]) {
          assert elements[..n][j] == elements[j];
        }
        var last := ResolveText(elements[n], variables);
        if last.Failure? {
          assert ResolveElements(elements, variables) == Failure(last.error);
          assert FirstUndefined(elements, variables, n, last.error);
        }
      }
    }
  }

  // ----- specification: the last source wins -----

  function Says(source: Source, key: string): Option<Value> {
    if source.document.None? then None else Declared(source.document.value, key)
  }

  /** What the last source to declare the key says about it, and which source that is. */
  function Winner(sources: seq<Source>, key: string): Option<Attributed<Value>> {
    if sources == [] then None
    else
      var last := sources[|sources| - 1];
      if Says(last, key).Some? then Some(Attributed(Says(last, key).value, last.origin))
      else Winner(sources[..|sources| - 1], key)
  }

  function TableWinner(sources: seq<Source>, key: string): Option<Origin> {
    if sources == [] then None
    else
      var last := sources[|sources| - 1];
      if last.document.Some? && key in last.document.value.tables then Some(last.origin)
      else TableWinner(sources[..|sources| - 1], key)
  }

  ghost predicate LastToSay(sources: seq<Source>, key: string, i: nat) {
    i < |sources| && Says(sources[i], key).Some? && forall j | i < j < |sources| :: Says(sources[j], key).None?
  }

  lemma {:induction false} WinnerSpeaksLast(sources: seq<Source>, key: string)
    ensures match Winner(sources, key)
      case None => forall i | 0 <= i < |sources| :: Says(sources[i], key).None?
      case Some(entry) =>
        exists i: nat ::
          LastToSay(sources, key, i) && entry == Attributed(Says(sources[i], key).value, sources[i].origin)
  {
    if sources != [] {
      var n := |sources| - 1;
      var rest := sources[..n];
      if Says(sources[n], key).Some? {
        assert LastToSay(sources, key, n);
      } else {
        WinnerSpeaksLast(rest, key);
        if Winner(rest, key).Some? {
          var i: nat :| LastToSay(rest, key, i)
                     && Winner(rest, key).value == Attributed(Says(rest[i], key).value, rest[i].origin);
          assert LastToSay(sources, key, i);
        } else {
          forall i | 0 <= i < n ensures Says(sources[i], key).None? {
            assert rest[i] == sources[i];
          }
        }
      }
    }
  }

  /** What the merged maps hold for a key. */
  function Lookup(c: Config, key: string): Option<Attributed<Value>> {
    if key in c.arrays then Some(Attributed(StringArray(c.arrays[key].value), c.arrays[key].origin))
    else if key in c.values then Some(Attributed(Scalar(c.values[key].value), c.values[key].origin))
    else None
  }

  ghost predicate Apart(c: Config) {
    c.values.Keys !! c.arrays.Keys
  }

  function LookupTable(c: Config, key: string): Option<Origin> {
    if key in c.tables then Some(c.tables[key]) else None
  }

  ghost predicate IsMerge(c: Config, sources: seq<Source>) {
    Apart(c)
    && (forall key :: Lookup(c, key) == Winner(sources, key))
    && forall key :: LookupTable(c, key) == TableWinner(sources, key)
  }

  // ----- specification: variables -----

  function EntryPairs(entries: seq<Option<(string, string)>>): seq<(string, string)> {
    if entries == [] then []
    else
      EntryPairs(entries[..|entries| - 1])
      + if entries[|entries| - 1].Some? then [entries[|entries| - 1].value] else []
  }

  function DotenvPairs(dotenvs: seq<Dotenv>): seq<(string, string)> {
    if dotenvs == [] then []
    else
      DotenvPairs(dotenvs[..|dotenvs| - 1])
      + if dotenvs[|dotenvs| - 1].file.Lines? then EntryPairs(dotenvs[|dotenvs| - 1].file.entries) else []
  }

  function EnvironmentPairs(environment: seq<EnvironmentEntry>): seq<(string, string)> {
    if environment == [] then []
    else
      var (name, value) := environment[|environment| - 1];
      EnvironmentPairs(environment[..|environment| - 1])
      + if name.Some? && value.Some? then [(name.value, value.value)] else []
  }

  /** The value of the last pair with that name. */
  function LastPair(pairs: seq<(string, string)>, name: string): Option<string> {
    if pairs == [] then None
    else if pairs[|pairs| - 1].0 == name then Some(pairs[|pairs| - 1].1)
    else LastPair(pairs[..|pairs| - 1], name)
  }

  predicate BadDotenv(d: Dotenv) {
    match d.file
    case Missing => d.required
    case Unreadable => true
    case Lines(entries) => None in entries
  }

  ghost predicate Assigns(variables: map<string, string>, pairs: seq<(string, string)>) {
    forall name ::
      LastPair(pairs, name) == if name in variables then Some(variables[name]) else None
  }

  lemma AssignMore(variables: map<string, string>, pairs: seq<(string, string)>, pair: (string, string))
    requires Assigns(variables, pairs)
    ensures Assigns(variables[pair.0 := pair.1], pairs + [pair])
  {
    var more := pairs + [pair];
    assert more[..|more| - 1] == pairs;
  }

  /** The process environment overrides the dotenv files. */
  lemma {:induction false} LaterPairsOverride(first: seq<(string, string)>, second: seq<(string, string)>, name: string)
    ensures LastPair(first + second, name)
      == if LastPair(second, name).Some? then LastPair(second, name) else LastPair(first, name)
  {
    if second == [] {
      assert first + second == first;
    } else {
      var n := |second| - 1;
      assert (first + second)[..|first + second| - 1] == first + second[..n];
      LaterPairsOverride(first, second[..n], name);
    }
  }
}
