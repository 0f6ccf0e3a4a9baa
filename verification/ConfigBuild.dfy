/** Building the configuration as it runs: loops over dotenv files, sources and
  * keys. Models `ConfigBuilder::build_with_environment` of
  * crates/mads-core/src/config.rs.
  */
module ConfigBuild {
  import opened Wrappers
  import opened Orders
  import opened ConfigMerge

  // ----- specification of a build -----

  /** Scalars are interpolated before arrays, each shape in key order. */
  ghost predicate ComesFirst(key: string, shape: Value, other: string, otherShape: Value) {
    if shape.Scalar? == otherShape.Scalar? then StringLe(key, other) else shape.Scalar?
  }

  ghost predicate Fails(entry: Option<Attributed<Value>>, variables: map<string, string>, variable: string) {
    entry.Some? && ResolveValue(entry.value.value, variables) == Failure(variable)
  }

  /** The key whose placeholder stops the build. */
  ghost predicate FirstFailure(sources: seq<Source>, variables: map<string, string>, key: string, variable: string) {
    Fails(Winner(sources, key), variables, variable)
    && forall other: string
         | Winner(sources, other).Some? && ResolveValue(Winner(sources, other).value.value, variables).Failure? ::
         ComesFirst(key, Winner(sources, key).value.value, other, Winner(sources, other).value.value)
  }

  function Resolved(entry: Option<Attributed<Value>>, variables: map<string, string>): Option<Attributed<Value>> {
    if entry.None? then None
    else
      var r := ResolveValue(entry.value.value, variables);
      if r.Success? then Some(Attributed(r.value, entry.value.origin)) else None
  }

  ghost predicate NothingFails(sources: seq<Source>, variables: map<string, string>) {
    forall key: string | Winner(sources, key).Some? ::
      ResolveValue(Winner(sources, key).value.value, variables).Success?
  }

  /** Every winner interpolated once, or the first placeholder that cannot be. */
  ghost predicate IsInterpolation(result: Result<Config, BuildError>, sources: seq<Source>,
                                  variables: map<string, string>)
  {
    match result
    case Success(c) =>
      Apart(c) && NothingFails(sources, variables)
      && (forall key :: Lookup(c, key) == Resolved(Winner(sources, key), variables))
      && forall key :: LookupTable(c, key) == TableWinner(sources, key)
    case Failure(error) =>
      error.MissingVariable? && FirstFailure(sources, variables, error.key, error.variable)
  }

  ghost predicate FirstBadDotenv(dotenvs: seq<Dotenv>, i: nat) {
    i < |dotenvs| && BadDotenv(dotenvs[i]) && forall j | 0 <= j < i :: !BadDotenv(dotenvs[j])
  }

  ghost predicate FirstBadSource(sources: seq<Source>, i: nat) {
    i < |sources| && sources[i].document.None? && forall j | 0 <= j < i :: sources[j].document.Some?
  }

  // ----- variables -----

  method ReadEntries(before: map<string, string>, ghost pairs: seq<(string, string)>,
                     entries: seq<Option<(string, string)>>)
    returns (r: Option<map<string, string>>)
    requires Assigns(before, pairs)
    ensures r.None? <==> None in entries
    ensures r.Some? ==> Assigns(r.value, pairs + EntryPairs(entries))
  {
    var variables := before;
    assert pairs + [] == pairs;
    for i := 0 to |entries|
      invariant None !in entries[..i]
      invariant Assigns(variables, pairs + EntryPairs(entries[..i]))
    {
      TakeMore(entries, i);
      if entries[i].None? {
        return None;
      }
      var pair := entries[i].value;
      EntryPairsMore(pairs, entries[..i], pair);
      AssignMore(variables, pairs + EntryPairs(entries[..i]), pair);
      variables := variables[pair.0 := pair.1];
    }
    assert entries[..|entries|] == entries;
    return Some(variables);
  }

  lemma EntryPairsMore(pairs: seq<(string, string)>, entries: seq<Option<(string, string)>>, pair: (string, string))
    ensures pairs + EntryPairs(entries + [Some(pair)]) == pairs + EntryPairs(entries) + [pair]
  {
    assert (entries + [Some(pair)])[..|entries|] == entries;
  }

  lemma DotenvPairsMore(dotenvs: seq<Dotenv>, d: Dotenv)
    ensures DotenvPairs(dotenvs + [d])
         == DotenvPairs(dotenvs) + if d.file.Lines? then EntryPairs(d.file.entries) else []
  {
    assert (dotenvs + [d])[..|dotenvs|] == dotenvs;
  }

  method ReadDotenvs(dotenvs: seq<Dotenv>) returns (r: Result<map<string, string>, BuildError>)
    ensures r.Success? ==> forall j | 0 <= j < |dotenvs| :: !BadDotenv(dotenvs[j])
    ensures r.Success? ==> Assigns(r.value, DotenvPairs(dotenvs))
    ensures r.Failure? ==> r.error.DotenvFailed? && FirstBadDotenv(dotenvs, r.error.index)
  {
    var variables := map[];
    for i := 0 to |dotenvs|
      invariant forall j | 0 <= j < i :: !BadDotenv(dotenvs[j])
      invariant Assigns(variables, DotenvPairs(dotenvs[..i]))
    {
      TakeMore(dotenvs, i);
      DotenvPairsMore(dotenvs[..i], dotenvs[i]);
      match dotenvs[i].file {
        case Missing =>
          if dotenvs[i].required {
            return Failure(DotenvFailed(i));
          }
          assert DotenvPairs(dotenvs[..i]) + [] == DotenvPairs(dotenvs[..i]);
        case Unreadable =>
          return Failure(DotenvFailed(i));
        case Lines(entries) =>
          var more := ReadEntries(variables, DotenvPairs(dotenvs[..i]), entries);
          if more.None? {
            return Failure(DotenvFailed(i));
          }
          variables := more.value;
      }
    }
    assert dotenvs[..|dotenvs|] == dotenvs;
    return Success(variables);
  }

  lemma EnvironmentPairsMore(pairs: seq<(string, string)>, environment: seq<EnvironmentEntry>, entry: EnvironmentEntry)
    ensures pairs + EnvironmentPairs(environment + [entry])
      == pairs + EnvironmentPairs(environment)
         + if entry.0.Some? && entry.1.Some? then [(entry.0.value, entry.1.value)] else []
  {
    assert (environment + [entry])[..|environment|] == environment;
  }

  method ReadEnvironment(before: map<string, string>, ghost pairs: seq<(string, string)>,
                         environment: seq<EnvironmentEntry>)
    returns (variables: map<string, string>)
    requires Assigns(before, pairs)
    ensures Assigns(variables, pairs + EnvironmentPairs(environment))
  {
    variables := before;
    assert pairs + [] == pairs;
    for i := 0 to |environment|
      invariant Assigns(variables, pairs + EnvironmentPairs(environment[..i]))
    {
      TakeMore(environment, i);
      var (name, value) := environment[i];
      EnvironmentPairsMore(pairs, environment[..i], environment[i]);
      if name.Some? && value.Some? {
        AssignMore(variables, pairs + EnvironmentPairs(environment[..i]), (name.value, value.value));
        variables := variables[name.value := value.value];
      } else {
        var all := pairs + EnvironmentPairs(environment[..i]);
        assert all + [] == all;
      }
    }
    assert environment[..|environment|] == environment;
  }

  // ----- merging -----

  function Override(says: Option<Value>, origin: Origin, before: Option<Attributed<Value>>): Option<Attributed<Value>> {
    if says.Some? then Some(Attributed(says.value, origin)) else before
  }

  function ScalarAt(scalars: map<string, string>, key: string): Option<Value> {
    if key in scalars then Some(Scalar(scalars[key])) else None
  }

  function ArrayAt(arrays: map<string, seq<string>>, key: string): Option<Value> {
    if key in arrays then Some(StringArray(arrays[key])) else None
  }

  method PutScalars(c: Config, scalars: map<string, string>, origin: Origin) returns (r: Config)
    requires Apart(c)
    ensures Apart(r) && r.tables == c.tables
    ensures forall key :: Lookup(r, key) == Override(ScalarAt(scalars, key), origin, Lookup(c, key))
  {
    r := c;
    var rest := scalars.Keys;
    while rest != {}
      invariant Apart(r) && r.tables == c.tables && rest <= scalars.Keys
      invariant forall key | key in rest :: Lookup(r, key) == Lookup(c, key)
      invariant forall key | key !in rest :: Lookup(r, key) == Override(ScalarAt(scalars, key), origin, Lookup(c, key))
      decreases rest
    {
      var key :| key in rest;
      r := r.(arrays := r.arrays - {key});
      r := r.(values := r.values[key := Attributed(scalars[key], origin)]);
      rest := rest - {key};
    }
  }

  method PutArrays(c: Config, arrays: map<string, seq<string>>, origin: Origin) returns (r: Config)
    requires Apart(c)
    ensures Apart(r) && r.tables == c.tables
    ensures forall key :: Lookup(r, key) == Override(ArrayAt(arrays, key), origin, Lookup(c, key))
  {
    r := c;
    var rest := arrays.Keys;
    while rest != {}
      invariant Apart(r) && r.tables == c.tables && rest <= arrays.Keys
      invariant forall key | key in rest :: Lookup(r, key) == Lookup(c, key)
      invariant forall key | key !in rest :: Lookup(r, key) == Override(ArrayAt(arrays, key), origin, Lookup(c, key))
      decreases rest
    {
      var key :| key in rest;
      r := r.(values := r.values - {key});
      r := r.(arrays := r.arrays[key := Attributed(arrays[key], origin)]);
      rest := rest - {key};
    }
  }

  method PutTables(c: Config, tables: set<string>, origin: Origin) returns (r: Config)
    ensures r.values == c.values && r.arrays == c.arrays
    ensures forall key :: LookupTable(r, key) == if key in tables then Some(origin) else LookupTable(c, key)
  {
    r := c;
    var rest := tables;
    while rest != {}
      invariant r.values == c.values && r.arrays == c.arrays && rest <= tables
      invariant forall key | key in rest :: LookupTable(r, key) == LookupTable(c, key)
      invariant forall key | key !in rest ::
        LookupTable(r, key) == if key in tables then Some(origin) else LookupTable(c, key)
      decreases rest
    {
      var key :| key in rest;
      r := r.(tables := r.tables[key := origin]);
      rest := rest - {key};
    }
  }

  lemma MergeMore(before: Config, after: Config, sources: seq<Source>, source: Source, d: Document)
    requires IsMerge(before, sources) && Apart(after) && source.document == Some(d)
    requires forall key :: Lookup(after, key) == Override(Declared(d, key), source.origin, Lookup(before, key))
    requires forall key ::
      LookupTable(after, key) == if key in d.tables then Some(source.origin) else LookupTable(before, key)
    ensures IsMerge(after, sources + [source])
  {
    var more := sources + [source];
    assert more[..|more| - 1] == sources;
  }

  method MergeDocument(c: Config, d: Document, origin: Origin) returns (r: Config)
    requires Apart(c)
    ensures Apart(r)
    ensures forall key :: Lookup(r, key) == Override(Declared(d, key), origin, Lookup(c, key))
    ensures forall key :: LookupTable(r, key) == if key in d.tables then Some(origin) else LookupTable(c, key)
  {
    var scalars := PutScalars(c, d.scalars, origin);
    var arrays := PutArrays(scalars, d.arrays, origin);
    r := PutTables(arrays, d.tables, origin);
  }

  method MergeSources(sources: seq<Source>) returns (r: Result<Config, BuildError>)
    ensures r.Success? ==> IsMerge(r.value, sources) && forall j | 0 <= j < |sources| :: sources[j].document.Some?
    ensures r.Failure? ==> r.error.SourceFailed? && FirstBadSource(sources, r.error.index)
  {
    var c := Config(map[], map[], map[]);
    for i := 0 to |sources|
      invariant IsMerge(c, sources[..i])
      invariant forall j | 0 <= j < i :: sources[j].document.Some?
    {
      if sources[i].document.None? {
        return Failure(SourceFailed(i));
      }
      TakeMore(sources, i);
      var before := c;
      c := MergeDocument(before, sources[i].document.value, sources[i].origin);
      MergeMore(before, c, sources[..i], sources[i], sources[i].document.value);
    }
    assert sources[..|sources|] == sources;
    return Success(c);
  }

  // ----- interpolation -----

  method InterpolateElements(elements: seq<string>, variables: map<string, string>)
    returns (r: Result<seq<string>, string>)
    ensures r == ResolveElements(elements, variables)
  {
    var done := elements;
    for i := 0 to |elements|
      invariant |done| == |elements| && done[i..] == elements[i..]
      invariant ResolveElements(elements[..i], variables) == Success(done[..i])
    {
      TakeMore(elements, i);
      ResolveMore(elements[..i], elements[i], variables);
      assert done[i] == done[i..][0] == elements[i];
      var name := ExactVariableName(done[i]);
      if name.Some? && name.value !in variables {
        ResolveStops(elements, i + 1, variables);
        return Failure(name.value);
      }
      if name.Some? {
        done := done[i := variables[name.value]];
      }
      TakeMore(done, i);
    }
    assert elements[..|elements|] == elements && done[..|elements|] == done;
    return Success(done);
  }

  lemma ResolveMore(elements: seq<string>, element: string, variables: map<string, string>)
    requires ResolveElements(elements, variables).Success?
    ensures ResolveElements(elements + [element], variables)
      == var r := ResolveText(element, variables);
         if r.Success? then Success(ResolveElements(elements, variables).value + [r.value]) else Failure(r.error)
  {
    assert (elements + [element])[..|elements|] == elements;
  }

  lemma {:induction false} ResolveStops(elements: seq<string>, i: nat, variables: map<string, string>)
    requires i <= |elements| && ResolveElements(elements[..i], variables).Failure?
    ensures ResolveElements(elements, variables) == ResolveElements(elements[..i], variables)
    decreases |elements|
  {
    if i == |elements| {
      assert elements[..i] == elements;
    } else {
      var rest := elements[..|elements| - 1];
      assert rest[..i] == elements[..i];
      ResolveStops(rest, i, variables);
    }
  }

  /** The next key of a `BTreeMap` in iteration order. */
  function LeastKey(keys: set<string>): (least: string)
    requires keys != {}
    ensures least in keys && forall key | key in keys :: StringLe(least, key)
  {
    StringLeIsTotalOrder();
    Least(StringLe, keys)
  }

  ghost predicate ScalarDone(was: Attributed<string>, now: Attributed<string>, variables: map<string, string>) {
    ResolveText(was.value, variables) == Success(now.value) && now.origin == was.origin
  }

  ghost predicate ArrayDone(was: Attributed<seq<string>>, now: Attributed<seq<string>>,
                            variables: map<string, string>)
  {
    ResolveElements(was.value, variables) == Success(now.value) && now.origin == was.origin
  }

  /** The first key whose value does not resolve. */
  ghost predicate FirstScalar(values: map<string, Attributed<string>>, variables: map<string, string>, key: string,
                              variable: string)
  {
    key in values && ResolveText(values[key].value, variables) == Failure(variable)
    && forall other | other in values && ResolveText(values[other].value, variables).Failure? :: StringLe(key, other)
  }

  ghost predicate FirstArray(arrays: map<string, Attributed<seq<string>>>, variables: map<string, string>,
                             key: string, variable: string)
  {
    key in arrays && ResolveElements(arrays[key].value, variables) == Failure(variable)
    && forall other | other in arrays && ResolveElements(arrays[other].value, variables).Failure? ::
         StringLe(key, other)
  }

  method InterpolateScalars(values: map<string, Attributed<string>>, variables: map<string, string>)
    returns (r: Result<map<string, Attributed<string>>, BuildError>)
    ensures r.Success? ==> r.value.Keys == values.Keys
    ensures r.Success? ==> forall key | key in values :: ScalarDone(values[key], r.value[key], variables)
    ensures r.Failure? ==> r.error.MissingVariable? && FirstScalar(values, variables, r.error.key, r.error.variable)
  {
    var now := values;
    var rest := values.Keys;
    while rest != {}
      invariant now.Keys == values.Keys && rest <= values.Keys
      invariant forall key | key in values && key !in rest :: ScalarDone(values[key], now[key], variables)
      invariant forall key | key in rest :: now[key] == values[key]
      decreases rest
    {
      var key := LeastKey(rest);
      var name := ExactVariableName(now[key].value);
      if name.Some? {
        if name.value !in variables {
          return Failure(MissingVariable(key, name.value));
        }
        now := now[key := now[key].(value := variables[name.value])];
      }
      rest := rest - {key};
    }
    return Success(now);
  }

  method InterpolateArrays(arrays: map<string, Attributed<seq<string>>>, variables: map<string, string>)
    returns (r: Result<map<string, Attributed<seq<string>>>, BuildError>)
    ensures r.Success? ==> r.value.Keys == arrays.Keys
    ensures r.Success? ==> forall key | key in arrays :: ArrayDone(arrays[key], r.value[key], variables)
    ensures r.Failure? ==> r.error.MissingVariable? && FirstArray(arrays, variables, r.error.key, r.error.variable)
  {
    var now := arrays;
    var rest := arrays.Keys;
    while rest != {}
      invariant now.Keys == arrays.Keys && rest <= arrays.Keys
      invariant forall key | key in arrays && key !in rest :: ArrayDone(arrays[key], now[key], variables)
      invariant forall key | key in rest :: now[key] == arrays[key]
      decreases rest
    {
      var key := LeastKey(rest);
      var elements := InterpolateElements(now[key].value, variables);
      if elements.Failure? {
        return Failure(MissingVariable(key, elements.error));
      }
      now := now[key := now[key].(value := elements.value)];
      rest := rest - {key};
    }
    return Success(now);
  }

  lemma ScalarFailsFirst(c: Config, sources: seq<Source>, variables: map<string, string>, key: string, variable: string)
    requires IsMerge(c, sources) && FirstScalar(c.values, variables, key, variable)
    ensures FirstFailure(sources, variables, key, variable)
  {
    assert Lookup(c, key) == Winner(sources, key);
    forall other: string
      | Winner(sources, other).Some? && ResolveValue(Winner(sources, other).value.value, variables).Failure?
      ensures ComesFirst(key, Winner(sources, key).value.value, other, Winner(sources, other).value.value)
    {
      assert Lookup(c, other) == Winner(sources, other);
    }
  }

  lemma ArrayFailsFirst(c: Config, sources: seq<Source>, variables: map<string, string>, key: string, variable: string)
    requires IsMerge(c, sources) && FirstArray(c.arrays, variables, key, variable)
    requires forall k | k in c.values :: ResolveText(c.values[k].value, variables).Success?
    ensures FirstFailure(sources, variables, key, variable)
  {
    assert Lookup(c, key) == Winner(sources, key);
    forall other: string
      | Winner(sources, other).Some? && ResolveValue(Winner(sources, other).value.value, variables).Failure?
      ensures ComesFirst(key, Winner(sources, key).value.value, other, Winner(sources, other).value.value)
    {
      assert Lookup(c, other) == Winner(sources, other);
    }
  }

  ghost predicate AllDone(c: Config, done: Config, variables: map<string, string>) {
    done.values.Keys == c.values.Keys && done.arrays.Keys == c.arrays.Keys && done.tables == c.tables
    && (forall key | key in c.values :: ScalarDone(c.values[key], done.values[key], variables))
    && forall key | key in c.arrays :: ArrayDone(c.arrays[key], done.arrays[key], variables)
  }

  lemma DoneIsResolved(c: Config, done: Config, sources: seq<Source>, variables: map<string, string>, key: string)
    requires IsMerge(c, sources) && AllDone(c, done, variables)
    ensures Lookup(done, key) == Resolved(Winner(sources, key), variables)
    ensures Winner(sources, key).Some? ==> ResolveValue(Winner(sources, key).value.value, variables).Success?
    ensures LookupTable(done, key) == TableWinner(sources, key)
  {
    assert Lookup(c, key) == Winner(sources, key);
    assert LookupTable(c, key) == TableWinner(sources, key);
  }

  lemma DoneIsInterpolation(c: Config, done: Config, sources: seq<Source>, variables: map<string, string>)
    requires IsMerge(c, sources) && AllDone(c, done, variables)
    ensures IsInterpolation(Success(done), sources, variables)
  {
    forall key ensures Lookup(done, key) == Resolved(Winner(sources, key), variables) {
      DoneIsResolved(c, done, sources, variables, key);
    }
    forall key ensures LookupTable(done, key) == TableWinner(sources, key) {
      DoneIsResolved(c, done, sources, variables, key);
    }
    forall key: string | Winner(sources, key).Some?
      ensures ResolveValue(Winner(sources, key).value.value, variables).Success?
    {
      DoneIsResolved(c, done, sources, variables, key);
    }
  }

  method Interpolate(c: Config, ghost sources: seq<Source>, variables: map<string, string>)
    returns (r: Result<Config, BuildError>)
    requires IsMerge(c, sources)
    ensures IsInterpolation(r, sources, variables)
  {
    var values := InterpolateScalars(c.values, variables);
    if values.Failure? {
      ScalarFailsFirst(c, sources, variables, values.error.key, values.error.variable);
      return Failure(values.error);
    }
    var arrays := InterpolateArrays(c.arrays, variables);
    if arrays.Failure? {
      forall k | k in c.values ensures ResolveText(c.values[k].value, variables).Success? {
        assert ScalarDone(c.values[k], values.value[k], variables);
      }
      ArrayFailsFirst(c, sources, variables, arrays.error.key, arrays.error.variable);
      return Failure(arrays.error);
    }
    var done := Config(values.value, arrays.value, c.tables);
    DoneIsInterpolation(c, done, sources, variables);
    return Success(done);
  }

  // ----- the build -----

  /** Unreadable dotenv files stop the build first, then sources, then placeholders. */
  ghost predicate IsBuild(
    result: Result<Config, BuildError>, dotenvs: seq<Dotenv>, environment: seq<EnvironmentEntry>, sources: seq<Source>)
  {
    if exists j | 0 <= j < |dotenvs| :: BadDotenv(dotenvs[j])
    then result.Failure? && result.error.DotenvFailed? && FirstBadDotenv(dotenvs, result.error.index)
    else if exists j | 0 <= j < |sources| :: sources[j].document.None?
    then result.Failure? && result.error.SourceFailed? && FirstBadSource(sources, result.error.index)
    else
      exists variables: map<string, string> ::
        Assigns(variables, DotenvPairs(dotenvs) + EnvironmentPairs(environment))
        && IsInterpolation(result, sources, variables)
  }

  method BuildWithEnvironment(dotenvs: seq<Dotenv>, environment: seq<EnvironmentEntry>, sources: seq<Source>)
    returns (result: Result<Config, BuildError>)
    ensures IsBuild(result, dotenvs, environment, sources)
  {
    var files := ReadDotenvs(dotenvs);
    if files.Failure? {
      return Failure(files.error);
    }
    var variables := ReadEnvironment(files.value, DotenvPairs(dotenvs), environment);
    var merged := MergeSources(sources);
    if merged.Failure? {
      return Failure(merged.error);
    }
    result := Interpolate(merged.value, sources, variables);
  }

  // ----- what a build depends on -----

  lemma AssignsOnce(a: map<string, string>, b: map<string, string>, pairs: seq<(string, string)>)
    requires Assigns(a, pairs) && Assigns(b, pairs)
    ensures a == b
  {
    forall name ensures name in a <==> name in b {
      assert LastPair(pairs, name) == LastPair(pairs, name);
    }
    forall name | name in a ensures a[name] == b[name] {
      assert LastPair(pairs, name) == Some(a[name]);
    }
  }

  lemma LookupDetermines(a: Config, b: Config)
    requires Apart(a) && Apart(b)
    requires forall key :: Lookup(a, key) == Lookup(b, key) && LookupTable(a, key) == LookupTable(b, key)
    ensures a == b
  {
    forall key ensures (key in a.values <==> key in b.values) && (key in a.arrays <==> key in b.arrays)
                       && (key in a.tables <==> key in b.tables) {
      assert Lookup(a, key) == Lookup(b, key) && LookupTable(a, key) == LookupTable(b, key);
    }
    forall key | key in a.values ensures a.values[key] == b.values[key] {
      assert Lookup(a, key) == Lookup(b, key);
    }
    forall key | key in a.arrays ensures a.arrays[key] == b.arrays[key] {
      assert Lookup(a, key) == Lookup(b, key);
    }
    forall key | key in a.tables ensures a.tables[key] == b.tables[key] {
      assert LookupTable(a, key) == LookupTable(b, key);
    }
    assert a.values == b.values && a.arrays == b.arrays && a.tables == b.tables;
  }

  ghost predicate SameWinners(s: seq<Source>, t: seq<Source>) {
    forall key :: Winner(s, key) == Winner(t, key) && TableWinner(s, key) == TableWinner(t, key)
  }

  /** Overridden values never matter: source lists with the same winners build the
    * same configuration or fail for the same placeholder.
    */
  lemma OnlyWinnersMatter(
    a: Result<Config, BuildError>, b: Result<Config, BuildError>, s: seq<Source>, t: seq<Source>,
    variables: map<string, string>)
    requires IsInterpolation(a, s, variables) && IsInterpolation(b, t, variables) && SameWinners(s, t)
    ensures a == b
  {
    if a.Success? && b.Success? {
      forall key
        ensures Lookup(a.value, key) == Lookup(b.value, key) && LookupTable(a.value, key) == LookupTable(b.value, key)
      {
        assert Winner(s, key) == Winner(t, key);
      }
      LookupDetermines(a.value, b.value);
    } else if a.Failure? && b.Failure? {
      var x, y := a.error.key, b.error.key;
      assert Winner(s, x) == Winner(t, x) && Winner(s, y) == Winner(t, y);
      StringLeIsTotalOrder();
      assert x == y;
    }
  }

  lemma FirstBadIsUnique(dotenvs: seq<Dotenv>, i: nat, j: nat)
    requires FirstBadDotenv(dotenvs, i) && FirstBadDotenv(dotenvs, j)
    ensures i == j
  {}

  lemma FirstFailingIsUnique(sources: seq<Source>, i: nat, j: nat)
    requires FirstBadSource(sources, i) && FirstBadSource(sources, j)
    ensures i == j
  {}

  ghost predicate AllLoaded(sources: seq<Source>) {
    forall j | 0 <= j < |sources| :: sources[j].document.Some?
  }

  lemma SameInterpolation(
    a: Result<Config, BuildError>, b: Result<Config, BuildError>, dotenvs: seq<Dotenv>,
    environment: seq<EnvironmentEntry>, s: seq<Source>, t: seq<Source>)
    requires IsBuild(a, dotenvs, environment, s) && IsBuild(b, dotenvs, environment, t) && SameWinners(s, t)
    requires AllLoaded(s) && AllLoaded(t) && forall j | 0 <= j < |dotenvs| :: !BadDotenv(dotenvs[j])
    ensures a == b
  {
    var pairs := DotenvPairs(dotenvs) + EnvironmentPairs(environment);
    var x :| Assigns(x, pairs) && IsInterpolation(a, s, x);
    var y :| Assigns(y, pairs) && IsInterpolation(b, t, y);
    AssignsOnce(x, y, pairs);
    OnlyWinnersMatter(a, b, s, t, x);
  }

  /** Any build has one result, errors included; and among lists of loaded sources
    * it depends on the winners alone.
    */
  lemma BuildIsDetermined(
    a: Result<Config, BuildError>, b: Result<Config, BuildError>, dotenvs: seq<Dotenv>,
    environment: seq<EnvironmentEntry>, s: seq<Source>, t: seq<Source>)
    requires IsBuild(a, dotenvs, environment, s) && IsBuild(b, dotenvs, environment, t)
    requires s == t || (AllLoaded(s) && AllLoaded(t) && SameWinners(s, t))
    ensures a == b
  {
    if exists j | 0 <= j < |dotenvs| :: BadDotenv(dotenvs[j]) {
      FirstBadIsUnique(dotenvs, a.error.index, b.error.index);
    } else if AllLoaded(s) {
      SameInterpolation(a, b, dotenvs, environment, s, t);
    } else {
      FirstFailingIsUnique(s, a.error.index, b.error.index);
    }
  }

  /** The value, or one element of it, is exactly the placeholder of this variable. */
  ghost predicate Needs(value: Value, variable: string) {
    IsVariableName(variable)
    && match value
       case Scalar(text) => text == "${" + variable + "}"
       case StringArray(elements) => "${" + variable + "}" in elements
  }

  lemma FailureNeeds(value: Value, variables: map<string, string>)
    requires ResolveValue(value, variables).Failure?
    ensures var variable := ResolveValue(value, variables).error; Needs(value, variable) && variable !in variables
  {
    var variable := ResolveValue(value, variables).error;
    match value
    case Scalar(text) =>
      PlaceholderExactly(text, variable);
    case StringArray(elements) =>
      ResolveElementsExactly(elements, variables);
      var i: nat :| FirstUndefined(elements, variables, i, variable);
      PlaceholderExactly(elements[i], variable);
  }

  lemma NeedFails(value: Value, variable: string, variables: map<string, string>)
    requires Needs(value, variable) && variable !in variables
    ensures ResolveValue(value, variables).Failure?
  {
    PlaceholderExactly("${" + variable + "}", variable);
    if value.StringArray? {
      ResolveElementsExactly(value.elements, variables);
      var i :| 0 <= i < |value.elements| && value.elements[i] == "${" + variable + "}";
      assert ResolveText(value.elements[i], variables).Failure?;
    }
  }

  ghost predicate Lacks(sources: seq<Source>, variables: map<string, string>, key: string, variable: string) {
    Winner(sources, key).Some? && Needs(Winner(sources, key).value.value, variable) && variable !in variables
  }

  /** The build fails for a placeholder exactly if some surviving value or array
    * element is the placeholder of an undefined variable, and it names such a one.
    */
  lemma FailsExactly(r: Result<Config, BuildError>, sources: seq<Source>, variables: map<string, string>)
    requires IsInterpolation(r, sources, variables)
    ensures r.Failure? <==> exists key, variable :: Lacks(sources, variables, key, variable)
    ensures r.Failure? ==> Lacks(sources, variables, r.error.key, r.error.variable)
  {
    if r.Failure? {
      FailureNeeds(Winner(sources, r.error.key).value.value, variables);
      assert Lacks(sources, variables, r.error.key, r.error.variable);
    }
    forall key, variable ensures Lacks(sources, variables, key, variable) ==> r.Failure? {
      if Lacks(sources, variables, key, variable) {
        NeedFails(Winner(sources, key).value.value, variable, variables);
      }
    }
  }
}
