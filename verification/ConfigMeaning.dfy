/** What a build gives, told from the dotenv files, the environment and the sources
  * alone: which text stands for a value, where it comes from, and what stops a build.
  */
module ConfigMeaning {
  import opened Wrappers
  import opened Orders
  import opened ConfigMerge
  import opened ConfigBuild

  // ----- the value of a variable -----

  ghost predicate SetsInEnvironment(entry: EnvironmentEntry, name: string) {
    entry.0 == Some(name) && entry.1.Some?
  }

  ghost predicate SetInEnvironment(environment: seq<EnvironmentEntry>, name: string, value: string) {
    exists i :: 0 <= i < |environment| && environment[i] == (Some(name), Some(value))
             && forall j | i < j < |environment| :: !SetsInEnvironment(environment[j], name)
  }

  ghost predicate SetsOnLine(entry: Option<(string, string)>, name: string) {
    entry.Some? && entry.value.0 == name
  }

  /** The last line of a file that sets the variable. */
  ghost predicate SetInFile(file: DotenvFile, name: string, value: string) {
    file.Lines? && exists i :: 0 <= i < |file.entries| && file.entries[i] == Some((name, value))
                            && forall j | i < j < |file.entries| :: !SetsOnLine(file.entries[j], name)
  }

  ghost predicate IsSilent(file: DotenvFile, name: string) {
    file.Lines? ==> forall j | 0 <= j < |file.entries| :: !SetsOnLine(file.entries[j], name)
  }

  /** The last file that sets the variable. */
  ghost predicate SetInFiles(dotenvs: seq<Dotenv>, name: string, value: string) {
    exists i :: 0 <= i < |dotenvs| && SetInFile(dotenvs[i].file, name, value)
             && forall j | i < j < |dotenvs| :: IsSilent(dotenvs[j].file, name)
  }

  /** The process environment goes before the files. */
  ghost predicate IsSet(dotenvs: seq<Dotenv>, environment: seq<EnvironmentEntry>, name: string, value: string) {
    || SetInEnvironment(environment, name, value)
    || (SetInFiles(dotenvs, name, value)
        && forall j | 0 <= j < |environment| :: !SetsInEnvironment(environment[j], name))
  }

  lemma {:induction false} EnvironmentSpeaksLast(environment: seq<EnvironmentEntry>, name: string)
    ensures match LastPair(EnvironmentPairs(environment), name)
      case Some(value) => SetInEnvironment(environment, name, value)
      case None => forall j | 0 <= j < |environment| :: !SetsInEnvironment(environment[j], name)
  {
    if environment != [] {
      var n := |environment| - 1;
      var (key, value) := environment[n];
      var rest := environment[..n];
      EnvironmentSpeaksLast(rest, name);
      var pairs := EnvironmentPairs(rest);
      if key.Some? && value.Some? {
        LastOfMore(pairs, (key.value, value.value), name);
      } else {
        assert pairs + [] == pairs;
      }
      if LastPair(pairs, name).Some? && !SetsInEnvironment(environment[n], name) {
        var set_ := LastPair(pairs, name).value;
        var i :| 0 <= i < |rest| && rest[i] == (Some(name), Some(set_))
              && forall j | i < j < |rest| :: !SetsInEnvironment(rest[j], name);
        assert environment[i] == rest[i];
        forall j | i < j < |environment| ensures !SetsInEnvironment(environment[j], name) {
          if j < n { assert environment[j] == rest[j]; }
        }
      } else if SetsInEnvironment(environment[n], name) {
        assert environment[n] == (Some(name), Some(value.value));
      } else {
        forall j | 0 <= j < |environment| ensures !SetsInEnvironment(environment[j], name) {
          if j < n { assert environment[j] == rest[j]; }
        }
      }
    }
  }

  lemma LastOfMore(pairs: seq<(string, string)>, pair: (string, string), name: string)
    ensures LastPair(pairs + [pair], name) == if pair.0 == name then Some(pair.1) else LastPair(pairs, name)
  {
    assert (pairs + [pair])[..|pairs|] == pairs;
  }

  lemma {:induction false} LinesSpeakLast(entries: seq<Option<(string, string)>>, name: string)
    ensures match LastPair(EntryPairs(entries), name)
      case Some(value) => SetInFile(Lines(entries), name, value)
      case None => IsSilent(Lines(entries), name)
  {
    if entries != [] {
      var n := |entries| - 1;
      var rest := entries[..n];
      LinesSpeakLast(rest, name);
      var pairs := EntryPairs(rest);
      if entries[n].Some? {
        LastOfMore(pairs, entries[n].value, name);
      } else {
        assert pairs + [] == pairs;
      }
      if LastPair(pairs, name).Some? && !SetsOnLine(entries[n], name) {
        var set_ := LastPair(pairs, name).value;
        var i :| 0 <= i < |rest| && rest[i] == Some((name, set_))
              && forall j | i < j < |rest| :: !SetsOnLine(rest[j], name);
        assert entries[i] == rest[i];
        forall j | i < j < |entries| ensures !SetsOnLine(entries[j], name) {
          if j < n { assert entries[j] == rest[j]; }
        }
      } else if SetsOnLine(entries[n], name) {
        assert entries[n] == Some((name, entries[n].value.1));
      } else {
        forall j | 0 <= j < |entries| ensures !SetsOnLine(entries[j], name) {
          if j < n { assert entries[j] == rest[j]; }
        }
      }
    }
  }

  lemma {:induction false} FilesSpeakLast(dotenvs: seq<Dotenv>, name: string)
    ensures match LastPair(DotenvPairs(dotenvs), name)
      case Some(value) => SetInFiles(dotenvs, name, value)
      case None => forall j | 0 <= j < |dotenvs| :: IsSilent(dotenvs[j].file, name)
  {
    if dotenvs != [] {
      var n := |dotenvs| - 1;
      var rest, file := dotenvs[..n], dotenvs[n].file;
      FilesSpeakLast(rest, name);
      var own := if file.Lines? then EntryPairs(file.entries) else [];
      LaterPairsOverride(DotenvPairs(rest), own, name);
      if file.Lines? { LinesSpeakLast(file.entries, name); }
      if LastPair(own, name).Some? {
        assert SetInFile(dotenvs[n].file, name, LastPair(own, name).value);
      } else if LastPair(DotenvPairs(rest), name).Some? {
        StillLast(dotenvs, name, LastPair(DotenvPairs(rest), name).value);
      } else {
        forall j | 0 <= j < |dotenvs| ensures IsSilent(dotenvs[j].file, name) {
          if j < n { assert dotenvs[j] == rest[j]; }
        }
      }
    }
  }

  lemma StillLast(dotenvs: seq<Dotenv>, name: string, value: string)
    requires dotenvs != [] && SetInFiles(dotenvs[..|dotenvs| - 1], name, value)
    requires IsSilent(dotenvs[|dotenvs| - 1].file, name)
    ensures SetInFiles(dotenvs, name, value)
  {
    var rest := dotenvs[..|dotenvs| - 1];
    var i :| 0 <= i < |rest| && SetInFile(rest[i].file, name, value)
          && forall j | i < j < |rest| :: IsSilent(rest[j].file, name);
    assert dotenvs[i] == rest[i];
    forall j | i < j < |dotenvs| ensures IsSilent(dotenvs[j].file, name) {
      if j < |rest| { assert dotenvs[j] == rest[j]; }
    }
  }

  /** The variables of a build have the values that are set last, the environment going first. */
  ghost predicate AreSet(variables: map<string, string>, dotenvs: seq<Dotenv>, environment: seq<EnvironmentEntry>) {
    && (forall name | name in variables :: IsSet(dotenvs, environment, name, variables[name]))
    && (forall name, value | IsSet(dotenvs, environment, name, value) :: name in variables)
  }

  lemma VariablesAreSet(variables: map<string, string>, dotenvs: seq<Dotenv>, environment: seq<EnvironmentEntry>)
    requires Assigns(variables, DotenvPairs(dotenvs) + EnvironmentPairs(environment))
    ensures AreSet(variables, dotenvs, environment)
  {
    forall name ensures name in variables ==> IsSet(dotenvs, environment, name, variables[name])
      ensures forall value | IsSet(dotenvs, environment, name, value) :: name in variables
    {
      LaterPairsOverride(DotenvPairs(dotenvs), EnvironmentPairs(environment), name);
      EnvironmentSpeaksLast(environment, name);
      FilesSpeakLast(dotenvs, name);
    }
  }

  // ----- what a text becomes -----

  lemma ContainsExactly(s: string, part: string)
    ensures ContainsText(s, part) <==> exists a, b :: s == a + part + b
  {
    if ContainsText(s, part) {
      var i :| 0 <= i <= |s| && OccursAt(s, part, i);
      assert s == s[..i] + part + s[i + |part|..];
    }
    if a, b :| s == a + part + b {
      assert s[|a|..|a| + |part|] == part;
      assert OccursAt(s, part, |a|);
    }
  }

  /** The names that a placeholder can have: not empty, and without the marks of
    * another placeholder, of an end or of a default.
    */
  lemma VariableNameExactly(v: string)
    ensures IsVariableName(v) <==>
      v != "" && forall a, b :: v != a + "${" + b && v != a + "}" + b && v != a + ":-" + b
  {
    ContainsExactly(v, "${");
    ContainsExactly(v, ":-");
    if '}' in v {
      var i :| 0 <= i < |v| && v[i] == '}';
      assert v == v[..i] + "}" + v[i + 1..];
    }
    forall a, b | v == a + "}" + b ensures '}' in v {
      assert v[|a|] == '}';
    }
  }

  /** A placeholder is replaced by its variable, any other text stays. */
  ghost predicate TextMeans(text: string, result: string, variables: map<string, string>) {
    if exists v :: text == "${" + v + "}" && IsVariableName(v)
    then exists v :: text == "${" + v + "}" && IsVariableName(v) && v in variables && result == variables[v]
    else result == text
  }

  ghost predicate ValueMeans(value: Value, result: Value, variables: map<string, string>) {
    match value
    case Scalar(text) => result.Scalar? && TextMeans(text, result.text, variables)
    case StringArray(elements) =>
      result.StringArray? && |result.elements| == |elements|
      && forall i | 0 <= i < |elements| :: TextMeans(elements[i], result.elements[i], variables)
  }

  lemma ResolveMeans(text: string, variables: map<string, string>)
    ensures ResolveText(text, variables).Success? ==> TextMeans(text, ResolveText(text, variables).value, variables)
  {
    forall v ensures ExactVariableName(text) == Some(v) <==> text == "${" + v + "}" && IsVariableName(v) {
      PlaceholderExactly(text, v);
    }
    var name := ExactVariableName(text);
    if name.Some? && ResolveText(text, variables).Success? {
      assert text == "${" + name.value + "}" && IsVariableName(name.value) && name.value in variables;
    }
  }

  lemma ResolveValueMeans(value: Value, variables: map<string, string>)
    ensures ResolveValue(value, variables).Success?
            ==> ValueMeans(value, ResolveValue(value, variables).value, variables)
  {
    match value
    case Scalar(text) => ResolveMeans(text, variables);
    case StringArray(elements) =>
      ResolveElementsExactly(elements, variables);
      var r := ResolveElements(elements, variables);
      if r.Success? {
        forall i | 0 <= i < |elements| ensures TextMeans(elements[i], r.value[i], variables) {
          ResolveMeans(elements[i], variables);
        }
      }
  }

  // ----- which source is heard -----

  ghost predicate LastToList(sources: seq<Source>, key: string, i: nat) {
    i < |sources| && Lists(sources[i], key) && forall j | i < j < |sources| :: !Lists(sources[j], key)
  }

  ghost predicate Lists(source: Source, key: string) {
    source.document.Some? && key in source.document.value.tables
  }

  lemma {:induction false} TableListsLast(sources: seq<Source>, key: string)
    ensures match TableWinner(sources, key)
      case None => forall i | 0 <= i < |sources| :: !Lists(sources[i], key)
      case Some(origin) => exists i: nat :: LastToList(sources, key, i) && origin == sources[i].origin
  {
    if sources != [] {
      var n := |sources| - 1;
      var rest := sources[..n];
      if Lists(sources[n], key) {
        assert LastToList(sources, key, n);
      } else {
        TableListsLast(rest, key);
        if TableWinner(rest, key).Some? {
          var i: nat :| LastToList(rest, key, i) && TableWinner(rest, key).value == rest[i].origin;
          assert LastToList(sources, key, i);
        } else {
          forall i | 0 <= i < n ensures !Lists(sources[i], key) {
            assert rest[i] == sources[i];
          }
        }
      }
    }
  }

  /** The configuration holds, for each key, what the last source to declare it says,
    * with its placeholders replaced, and where it comes from; and nothing else.
    */
  ghost predicate HoldsWhatIsSaid(c: Config, sources: seq<Source>, variables: map<string, string>) {
    && (forall key, i: nat | LastToSay(sources, key, i) ::
          && Lookup(c, key).Some? && Lookup(c, key).value.origin == sources[i].origin
          && ValueMeans(Says(sources[i], key).value, Lookup(c, key).value.value, variables))
    && (forall key | Lookup(c, key).Some? :: exists i: nat :: LastToSay(sources, key, i))
    && (forall key, i: nat | LastToList(sources, key, i) :: LookupTable(c, key) == Some(sources[i].origin))
    && (forall key | LookupTable(c, key).Some? :: exists i: nat :: LastToList(sources, key, i))
  }

  lemma InterpolationHolds(c: Config, sources: seq<Source>, variables: map<string, string>)
    requires IsInterpolation(Success(c), sources, variables)
    ensures HoldsWhatIsSaid(c, sources, variables)
  {
    forall key, i: nat | LastToSay(sources, key, i)
      ensures Lookup(c, key).Some? && Lookup(c, key).value.origin == sources[i].origin
      ensures ValueMeans(Says(sources[i], key).value, Lookup(c, key).value.value, variables)
    {
      WinnerSpeaksLast(sources, key);
      ResolveValueMeans(Says(sources[i], key).value, variables);
      assert Winner(sources, key) == Some(Attributed(Says(sources[i], key).value, sources[i].origin));
    }
    forall key | Lookup(c, key).Some? ensures exists i: nat :: LastToSay(sources, key, i) {
      WinnerSpeaksLast(sources, key);
    }
    forall key
      ensures forall i: nat | LastToList(sources, key, i) :: LookupTable(c, key) == Some(sources[i].origin)
      ensures LookupTable(c, key).Some? ==> exists i: nat :: LastToList(sources, key, i)
    {
      TableListsLast(sources, key);
    }
  }

  // ----- what stops a build -----

  /** A dotenv file that is required and missing, cannot be read, or has a bad line. */
  ghost predicate Stops(d: Dotenv) {
    || (d.file.Missing? && d.required)
    || d.file.Unreadable?
    || (d.file.Lines? && exists i :: 0 <= i < |d.file.entries| && d.file.entries[i].None?)
  }

  lemma StopsExactly(d: Dotenv)
    ensures BadDotenv(d) <==> Stops(d)
  {}

  /** A declared text is the placeholder of a variable that is not set. */
  ghost predicate IsLost(value: Value, variables: map<string, string>, variable: string) {
    Needs(value, variable) && variable !in variables
  }

  /** Of the values that cannot be interpolated the one named is a scalar if any is,
    * and stands first among its like.
    */
  ghost predicate NamesFirstLost(sources: seq<Source>, variables: map<string, string>, key: string, variable: string) {
    exists i: nat ::
      && LastToSay(sources, key, i) && IsLost(Says(sources[i], key).value, variables, variable)
      && forall other, j: nat, v
           | LastToSay(sources, other, j) && IsLost(Says(sources[j], other).value, variables, v) ::
           var value, rival := Says(sources[i], key).value, Says(sources[j], other).value;
           (rival.Scalar? ==> value.Scalar?) && (rival.Scalar? == value.Scalar? ==> StringLe(key, other))
  }

  lemma InterpolationNamesFirst(sources: seq<Source>, variables: map<string, string>, key: string, variable: string)
    requires IsInterpolation(Failure(MissingVariable(key, variable)), sources, variables)
    ensures NamesFirstLost(sources, variables, key, variable)
  {
    FailureNeeds(Winner(sources, key).value.value, variables);
    WinnerSpeaksLast(sources, key);
    var i: nat :| LastToSay(sources, key, i)
               && Winner(sources, key).value == Attributed(Says(sources[i], key).value, sources[i].origin);
    forall other, j: nat, v | LastToSay(sources, other, j) && IsLost(Says(sources[j], other).value, variables, v)
      ensures var value, rival := Says(sources[i], key).value, Says(sources[j], other).value;
        (rival.Scalar? ==> value.Scalar?) && (rival.Scalar? == value.Scalar? ==> StringLe(key, other))
    {
      WinnerSpeaksLast(sources, other);
      NeedFails(Says(sources[j], other).value, v, variables);
    }
  }

  /** What any build comes to. */
  ghost predicate BuildMeans(result: Result<Config, BuildError>, dotenvs: seq<Dotenv>,
                             environment: seq<EnvironmentEntry>, sources: seq<Source>)
  {
    match result
    case Success(c) =>
      && (forall d | d in dotenvs :: !Stops(d)) && (forall s | s in sources :: s.document.Some?)
      && exists variables :: AreSet(variables, dotenvs, environment) && HoldsWhatIsSaid(c, sources, variables)
    case Failure(DotenvFailed(i)) =>
      i < |dotenvs| && Stops(dotenvs[i]) && forall j | 0 <= j < i :: !Stops(dotenvs[j])
    case Failure(SourceFailed(i)) =>
      && (forall d | d in dotenvs :: !Stops(d))
      && i < |sources| && sources[i].document.None? && forall j | 0 <= j < i :: sources[j].document.Some?
    case Failure(MissingVariable(key, variable)) =>
      && (forall d | d in dotenvs :: !Stops(d)) && (forall s | s in sources :: s.document.Some?)
      && exists variables ::
           AreSet(variables, dotenvs, environment) && NamesFirstLost(sources, variables, key, variable)
  }

  lemma EveryBuildMeans(result: Result<Config, BuildError>, dotenvs: seq<Dotenv>, environment: seq<EnvironmentEntry>,
                        sources: seq<Source>)
    requires IsBuild(result, dotenvs, environment, sources)
    ensures BuildMeans(result, dotenvs, environment, sources)
  {
    forall d | d in dotenvs ensures BadDotenv(d) <==> Stops(d) { StopsExactly(d); }
    if !(exists j | 0 <= j < |dotenvs| :: BadDotenv(dotenvs[j])) && AllLoaded(sources) {
      var variables: map<string, string> :|
        Assigns(variables, DotenvPairs(dotenvs) + EnvironmentPairs(environment))
        && IsInterpolation(result, sources, variables);
      VariablesAreSet(variables, dotenvs, environment);
      if result.Success? {
        InterpolationHolds(result.value, sources, variables);
      } else {
        InterpolationNamesFirst(sources, variables, result.error.key, result.error.variable);
      }
    }
  }
}
