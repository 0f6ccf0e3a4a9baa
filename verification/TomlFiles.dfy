/** TOML files as configuration sources: nested tables become keys joined with dots.
  * Models `flatten_toml`, `insert_scalar` and `TomlSource` of
  * crates/mads-core/src/config.rs, after parsing.
  */
module TomlFiles {
  import opened Wrappers
  import opened ConfigMerge

  /** `Plain` is an integer, a float or a boolean, as it prints. */
  datatype Toml =
    | Table(fields: Fields)
    | Text(text: string)
    | Plain(printed: string)
    | Array(elements: seq<Toml>)
    | Datetime

  /** The entries of a table in the order in which it yields them. */
  datatype Fields = NoFields | Field(segment: string, value: Toml, rest: Fields)

  datatype ArrayMode = Reject | StringOnly

  datatype Unsupported = Unsupported(key: string, kind: string)

  /** `Malformed` is not TOML, or holds an inline table. */
  datatype TomlFile = Missing | Unreadable | Malformed | Parsed(root: Toml)

  function Extend(prefix: string, segment: string): string {
    if prefix == "" then segment else prefix + "." + segment
  }

  predicate AreTexts(elements: seq<Toml>) {
    forall e | e in elements :: e.Text?
  }

  function Texts(elements: seq<Toml>): seq<string>
    requires AreTexts(elements)
  {
    seq(|elements|, i requires 0 <= i < |elements| => elements[i].text)
  }

  /** What a value other than a table puts into a configuration. */
  function Leaf(value: Toml): Option<Value> {
    match value
    case Text(text) => Some(Scalar(text))
    case Plain(printed) => Some(Scalar(printed))
    case Array(elements) => if AreTexts(elements) then Some(StringArray(Texts(elements))) else None
    case _ => None
  }

  // ----- what a value says under a prefix -----

  /** The first value that is not supported. */
  function Rejected(prefix: string, value: Toml, mode: ArrayMode): Option<Unsupported>
    decreases value
  {
    match value
    case Table(fields) => RejectedIn(prefix, fields, mode)
    case Array(elements) =>
      if mode.Reject? then Some(Unsupported(prefix, "array"))
      else if AreTexts(elements) then None
      else Some(Unsupported(prefix, "non-string array"))
    case Datetime => Some(Unsupported(prefix, "datetime"))
    case _ => if prefix == "" then Some(Unsupported(prefix, "root scalar")) else None
  }

  function RejectedIn(prefix: string, fields: Fields, mode: ArrayMode): Option<Unsupported>
    decreases fields
  {
    match fields
    case NoFields => None
    case Field(segment, value, rest) =>
      var first := Rejected(Extend(prefix, segment), value, mode);
      if first.Some? then first else RejectedIn(prefix, rest, mode)
  }

  /** What is said last about a key. */
  function Says(prefix: string, value: Toml, key: string): Option<Value>
    decreases value
  {
    match value
    case Table(fields) => SaysIn(prefix, fields, key)
    case _ => if key == prefix then Leaf(value) else None
  }

  function SaysIn(prefix: string, fields: Fields, key: string): Option<Value>
    decreases fields
  {
    match fields
    case NoFields => None
    case Field(segment, value, rest) => Over(SaysIn(prefix, rest, key), Says(Extend(prefix, segment), value, key))
  }

  function Over<T>(later: Option<T>, earlier: Option<T>): Option<T> {
    if later.Some? then later else earlier
  }

  /** The tables, apart from one without a name. */
  function Tables(prefix: string, value: Toml): set<string>
    decreases value
  {
    match value
    case Table(fields) => (if prefix == "" then {} else {prefix}) + TablesIn(prefix, fields)
    case _ => {}
  }

  function TablesIn(prefix: string, fields: Fields): set<string>
    decreases fields
  {
    match fields
    case NoFields => {}
    case Field(segment, value, rest) => Tables(Extend(prefix, segment), value) + TablesIn(prefix, rest)
  }

  // ----- flattening as it runs -----

  method InsertLeaf(key: string, value: string, output: ConfigDocument) returns (error: Option<Unsupported>)
    requires output.Valid()
    modifies output
    ensures output.Valid() && output.tables == old(output.tables)
    ensures error == if key == "" then Some(Unsupported(key, "root scalar")) else None
    ensures error.None? ==>
      forall k ::
        Declared(output.View(), k) == if k == key then Some(Scalar(value)) else old(Declared(output.View(), k))
  {
    if key == "" {
      return Some(Unsupported(key, "root scalar"));
    }
    output.InsertScalar(key, value);
    return None;
  }

  method FlattenToml(prefix: string, value: Toml, output: ConfigDocument, mode: ArrayMode)
    returns (error: Option<Unsupported>)
    requires output.Valid()
    modifies output
    ensures output.Valid()
    ensures error == Rejected(prefix, value, mode)
    ensures error.None? ==>
      forall key :: Declared(output.View(), key) == Over(Says(prefix, value, key), old(Declared(output.View(), key)))
    ensures error.None? ==> output.tables == old(output.tables) + Tables(prefix, value)
    decreases value
  {
    match value {
      case Table(fields) =>
        if prefix != "" {
          output.InsertTable(prefix);
        }
        var left := fields;
        while left.Field?
          invariant output.Valid() && (left == fields || left < fields)
          invariant RejectedIn(prefix, left, mode) == Rejected(prefix, value, mode)
          invariant forall key ::
            Over(SaysIn(prefix, left, key), Declared(output.View(), key))
            == Over(Says(prefix, value, key), old(Declared(output.View(), key)))
          invariant output.tables + TablesIn(prefix, left) == old(output.tables) + Tables(prefix, value)
          decreases left
        {
          error := FlattenToml(Extend(prefix, left.segment), left.value, output, mode);
          if error.Some? {
            return;
          }
          left := left.rest;
        }
        return None;
      case Text(text) =>
        error := InsertLeaf(prefix, text, output);
      case Plain(printed) =>
        error := InsertLeaf(prefix, printed, output);
      case Array(elements) =>
        if mode.Reject? {
          return Some(Unsupported(prefix, "array"));
        }
        if !AreTexts(elements) {
          return Some(Unsupported(prefix, "non-string array"));
        }
        output.InsertStringArray(prefix, Texts(elements));
        return None;
      case Datetime =>
        return Some(Unsupported(prefix, "datetime"));
    }
  }

  /** `load_document`: an optional file that is missing is an empty document. */
  method LoadToml(origin: Origin, required: bool, file: TomlFile) returns (source: Source)
    ensures source.origin == origin
    ensures source.document.None? <==>
      match file
      case Missing => required
      case Parsed(root) => Rejected("", root, StringOnly).Some?
      case _ => true
    ensures file.Missing? && !required ==> source.document == Some(Document(map[], map[], {}))
    ensures file.Parsed? && source.document.Some? ==>
      && source.document.value.tables == Tables("", file.root)
      && forall key :: Declared(source.document.value, key) == Says("", file.root, key)
  {
    var output := new ConfigDocument.FromScalars(map[]);
    match file {
      case Missing =>
        return Source(origin, if required then None else Some(output.View()));
      case Parsed(root) =>
        var error := FlattenToml("", root, output, StringOnly);
        return Source(origin, if error.Some? then None else Some(output.View()));
      case _ =>
        return Source(origin, None);
    }
  }

  /** A source of scalars only. */
  method LoadScalars(origin: Origin, values: map<string, string>) returns (source: Source)
    ensures source.origin == origin && source.document.Some?
    ensures forall key :: ConfigMerge.Says(source, key) == if key in values then Some(Scalar(values[key])) else None
  {
    var output := new ConfigDocument.FromScalars(values);
    return Source(origin, Some(output.View()));
  }

  // ----- what stands in a file -----

  /** What stands at the end of a path of names. */
  function At(value: Toml, path: seq<string>): Option<Toml>
    decreases value
  {
    if path == [] then Some(value)
    else if value.Table? then AtIn(value.fields, path)
    else None
  }

  function AtIn(fields: Fields, path: seq<string>): Option<Toml>
    requires path != []
    decreases fields
  {
    match fields
    case NoFields => None
    case Field(segment, value, rest) => if segment == path[0] then At(value, path[1..]) else AtIn(rest, path)
  }

  predicate Holds(fields: Fields, segment: string) {
    fields.Field? && (fields.segment == segment || Holds(fields.rest, segment))
  }

  /** No table gives a name twice, as TOML demands. */
  predicate NamesOnce(value: Toml)
    decreases value
  {
    value.Table? ==> NamesOnceIn(value.fields)
  }

  predicate NamesOnceIn(fields: Fields)
    decreases fields
  {
    match fields
    case NoFields => true
    case Field(segment, value, rest) => !Holds(rest, segment) && NamesOnce(value) && NamesOnceIn(rest)
  }

  lemma {:induction false} AbsentStands(fields: Fields, path: seq<string>)
    requires path != [] && !Holds(fields, path[0])
    ensures AtIn(fields, path).None?
  {
    if fields.Field? { AbsentStands(fields.rest, path); }
  }

  /** A path of the first entry, and a path of another. */
  lemma AtFirst(fields: Fields, path: seq<string>)
    requires fields.Field?
    ensures AtIn(fields, [fields.segment] + path) == At(fields.value, path)
  {
    assert ([fields.segment] + path)[1..] == path;
  }

  lemma AtLater(fields: Fields, path: seq<string>)
    requires fields.Field? && NamesOnceIn(fields) && path != [] && AtIn(fields.rest, path).Some?
    ensures AtIn(fields, path) == AtIn(fields.rest, path)
  {
    if !Holds(fields.rest, path[0]) { AbsentStands(fields.rest, path); }
  }

  /** The dotted form of a path. */
  function Key(path: seq<string>): string {
    if path == [] then "" else Extend(Key(path[..|path| - 1]), path[|path| - 1])
  }

  lemma KeyMore(path: seq<string>, segment: string)
    ensures Key(path + [segment]) == Extend(Key(path), segment)
  {
    assert (path + [segment])[..|path|] == path;
  }

  lemma StepDown(from: seq<string>, segment: string, below: seq<string>)
    ensures from + ([segment] + below) == from + [segment] + below
    ensures Key(from + [segment]) == Extend(Key(from), segment)
  {
    KeyMore(from, segment);
  }

  function Stands(found: Option<Toml>): Option<Value> {
    if found.Some? then Leaf(found.value) else None
  }

  predicate StandsTable(found: Option<Toml>) {
    found.Some? && found.value.Table?
  }

  // ----- what is lost -----

  /** Whatever is said about a key stands at a path of that dotted form. */
  lemma {:induction false} SaidStands(from: seq<string>, value: Toml, key: string) returns (path: seq<string>)
    requires NamesOnce(value) && Says(Key(from), value, key).Some?
    ensures key == Key(from + path) && Stands(At(value, path)) == Says(Key(from), value, key)
    decreases value
  {
    if value.Table? {
      path := SaidStandsIn(from, value.fields, key);
    } else {
      path := [];
      assert from + path == from;
    }
  }

  lemma {:induction false} SaidStandsIn(from: seq<string>, fields: Fields, key: string) returns (path: seq<string>)
    requires NamesOnceIn(fields) && SaysIn(Key(from), fields, key).Some?
    ensures key == Key(from + path) && path != [] && Stands(AtIn(fields, path)) == SaysIn(Key(from), fields, key)
    decreases fields
  {
    if SaysIn(Key(from), fields.rest, key).Some? {
      path := SaidStandsIn(from, fields.rest, key);
      AtLater(fields, path);
    } else {
      StepDown(from, fields.segment, []);
      var below := SaidStands(from + [fields.segment], fields.value, key);
      path := [fields.segment] + below;
      StepDown(from, fields.segment, below);
      AtFirst(fields, below);
    }
  }

  /** Every value makes its key speak, if not for itself. */
  lemma {:induction false} StandingSpeaks(from: seq<string>, value: Toml, path: seq<string>)
    requires Stands(At(value, path)).Some?
    ensures Says(Key(from), value, Key(from + path)).Some?
    decreases value
  {
    if value.Table? {
      StandingSpeaksIn(from, value.fields, path);
    } else {
      assert from + path == from;
    }
  }

  lemma {:induction false} StandingSpeaksIn(from: seq<string>, fields: Fields, path: seq<string>)
    requires path != [] && Stands(AtIn(fields, path)).Some?
    ensures SaysIn(Key(from), fields, Key(from + path)).Some?
    decreases fields
  {
    if fields.segment == path[0] {
      StepDown(from, fields.segment, path[1..]);
      assert path == [path[0]] + path[1..];
      StandingSpeaks(from + [fields.segment], fields.value, path[1..]);
    } else {
      StandingSpeaksIn(from, fields.rest, path);
    }
  }

  /** The document says of every value in the file what stands there. */
  ghost predicate LosesNothing(root: Toml) {
    forall path | Stands(At(root, path)).Some? :: Says("", root, Key(path)) == Stands(At(root, path))
  }

  /** Values whose paths have one dotted form are equal. */
  ghost predicate LeavesAgree(root: Toml) {
    forall p, q | Stands(At(root, p)).Some? && Stands(At(root, q)).Some? && Key(p) == Key(q) ::
      Stands(At(root, p)) == Stands(At(root, q))
  }

  /** Whatever a document says stands in its file, and it says something of every
    * value there.
    */
  lemma EveryKeyIsAPath(root: Toml, key: string)
    requires NamesOnce(root)
    ensures Says("", root, key).Some? <==> exists path :: key == Key(path) && Stands(At(root, path)).Some?
    ensures Says("", root, key).Some? ==>
      exists path :: key == Key(path) && Stands(At(root, path)) == Says("", root, key)
  {
    if Says("", root, key).Some? {
      var path := SaidStands([], root, key);
      assert [] + path == path;
    }
    if path :| key == Key(path) && Stands(At(root, path)).Some? {
      StandingSpeaks([], root, path);
      assert [] + path == path;
    }
  }

  /** Flattening loses no value if and only if values with one dotted form are equal. */
  lemma LosesNothingExactly(root: Toml)
    requires NamesOnce(root)
    ensures LosesNothing(root) <==> LeavesAgree(root)
  {
    if LeavesAgree(root) {
      forall path | Stands(At(root, path)).Some? ensures Says("", root, Key(path)) == Stands(At(root, path)) {
        EveryKeyIsAPath(root, Key(path));
        assert Says("", root, Key(path)).Some?;
        var said :| Key(path) == Key(said) && Stands(At(root, said)) == Says("", root, Key(path));
      }
    }
  }

  /** What a value of the file is in a configuration: arrays keep their order. */
  ghost predicate IsDeclaredAs(value: Toml, declared: Value) {
    match value
    case Text(text) => declared == Scalar(text)
    case Plain(printed) => declared == Scalar(printed)
    case Array(elements) =>
      && declared.StringArray? && |declared.elements| == |elements|
      && forall i :: 0 <= i < |elements| ==> elements[i] == Text(declared.elements[i])
    case _ => false
  }

  lemma LeafIsDeclared(value: Toml)
    ensures Leaf(value).Some? ==> IsDeclaredAs(value, Leaf(value).value)
  {
    if value.Array? && AreTexts(value.elements) {
      forall i | 0 <= i < |value.elements| ensures value.elements[i] == Text(Texts(value.elements)[i]) {
        assert value.elements[i] in value.elements;
      }
    }
  }

  lemma DeclaredIsLeaf(value: Toml, declared: Value)
    requires IsDeclaredAs(value, declared)
    ensures Leaf(value).Some?
  {
    if value.Array? {
      forall e | e in value.elements ensures e.Text? {
        var i :| 0 <= i < |value.elements| && value.elements[i] == e;
        assert e == Text(declared.elements[i]);
      }
    }
  }

  ghost predicate StandsAs(root: Toml, path: seq<string>, declared: Value) {
    At(root, path).Some? && IsDeclaredAs(At(root, path).value, declared)
  }

  /** A document says something about a key if and only if a text, a printed value or an
    * array of texts stands at a path of that dotted form, and what it says is such a
    * value, element by element.
    */
  lemma SaidIsDeclared(root: Toml, key: string)
    requires NamesOnce(root)
    ensures Says("", root, key).Some? <==> exists path, declared :: key == Key(path) && StandsAs(root, path, declared)
    ensures Says("", root, key).Some? ==>
      exists path :: key == Key(path) && StandsAs(root, path, Says("", root, key).value)
  {
    EveryKeyIsAPath(root, key);
    if Says("", root, key).Some? {
      var path :| key == Key(path) && Stands(At(root, path)) == Says("", root, key);
      LeafIsDeclared(At(root, path).value);
      assert StandsAs(root, path, Says("", root, key).value);
    }
    if path, declared :| key == Key(path) && StandsAs(root, path, declared) {
      DeclaredIsLeaf(At(root, path).value, declared);
    }
  }

  // ----- the tables -----

  lemma {:induction false} ListedStands(from: seq<string>, value: Toml, key: string) returns (path: seq<string>)
    requires NamesOnce(value) && key in Tables(Key(from), value)
    ensures key == Key(from + path) && key != "" && StandsTable(At(value, path))
    decreases value
  {
    if key != "" && key == Key(from) {
      path := [];
      assert from + path == from;
    } else {
      path := ListedStandsIn(from, value.fields, key);
    }
  }

  lemma {:induction false} ListedStandsIn(from: seq<string>, fields: Fields, key: string) returns (path: seq<string>)
    requires NamesOnceIn(fields) && key in TablesIn(Key(from), fields)
    ensures key == Key(from + path) && key != "" && path != [] && StandsTable(AtIn(fields, path))
    decreases fields
  {
    if key in TablesIn(Key(from), fields.rest) {
      path := ListedStandsIn(from, fields.rest, key);
      AtLater(fields, path);
    } else {
      StepDown(from, fields.segment, []);
      var below := ListedStands(from + [fields.segment], fields.value, key);
      path := [fields.segment] + below;
      StepDown(from, fields.segment, below);
      AtFirst(fields, below);
    }
  }

  lemma {:induction false} StandingIsListed(from: seq<string>, value: Toml, path: seq<string>)
    requires StandsTable(At(value, path)) && Key(from + path) != ""
    ensures Key(from + path) in Tables(Key(from), value)
    decreases value
  {
    if path == [] {
      assert from + path == from;
    } else {
      StandingIsListedIn(from, value.fields, path);
    }
  }

  lemma {:induction false} StandingIsListedIn(from: seq<string>, fields: Fields, path: seq<string>)
    requires path != [] && StandsTable(AtIn(fields, path)) && Key(from + path) != ""
    ensures Key(from + path) in TablesIn(Key(from), fields)
    decreases fields
  {
    if fields.segment == path[0] {
      StepDown(from, fields.segment, path[1..]);
      assert path == [path[0]] + path[1..];
      StandingIsListed(from + [fields.segment], fields.value, path[1..]);
    } else {
      StandingIsListedIn(from, fields.rest, path);
    }
  }

  /** The tables listed are the dotted forms of all tables but those without a name. */
  lemma TablesExactly(root: Toml, key: string)
    requires NamesOnce(root)
    ensures key in Tables("", root) <==> key != "" && exists path :: key == Key(path) && StandsTable(At(root, path))
  {
    if key in Tables("", root) {
      var path := ListedStands([], root, key);
      assert [] + path == path;
    }
    if path :| key != "" && key == Key(path) && StandsTable(At(root, path)) {
      assert [] + path == path;
      StandingIsListed([], root, path);
    }
  }

  // ----- bare keys -----

  predicate IsPlain(segment: string) {
    segment != "" && '.' !in segment
  }

  predicate IsPlainPath(path: seq<string>) {
    forall segment | segment in path :: IsPlain(segment)
  }

  /** Every name in the file is like a bare key, and given once in its table. */
  ghost predicate HasPlainKeys(root: Toml) {
    NamesOnce(root) && forall path | At(root, path).Some? :: IsPlainPath(path)
  }

  lemma LastDot(a: string, s: string)
    requires '.' !in s
    ensures var x := a + "." + s; x[|a|] == '.' && forall i | |a| < i < |x| :: x[i] != '.'
  {
    var x := a + "." + s;
    forall i | |a| < i < |x| ensures x[i] != '.' {
      assert x[i] == s[i - |a| - 1];
    }
  }

  /** The last dot of a text splits it in one way. */
  lemma LastDotSplits(a: string, s: string, b: string, t: string)
    requires '.' !in s && '.' !in t && a + "." + s == b + "." + t
    ensures a == b && s == t
  {
    var x := a + "." + s;
    LastDot(a, s);
    LastDot(b, t);
    assert |a| == |b|;
    assert a == x[..|a|] && b == x[..|b|];
    assert s == x[|a| + 1..] && t == x[|b| + 1..];
  }

  lemma SegmentsSplit(a: string, s: string, b: string, t: string)
    requires IsPlain(s) && IsPlain(t) && Extend(a, s) == Extend(b, t)
    ensures a == b && s == t
  {
    LastDot(a, s);
    LastDot(b, t);
    assert a != "" <==> '.' in Extend(a, s);
    assert b != "" <==> '.' in Extend(b, t);
    if a != "" {
      LastDotSplits(a, s, b, t);
    }
  }

  lemma PlainKeyIsEmpty(path: seq<string>)
    requires IsPlainPath(path)
    ensures Key(path) == "" <==> path == []
  {
    if path != [] { assert IsPlain(path[|path| - 1]); }
  }

  lemma {:induction false} KeyIsInjective(p: seq<string>, q: seq<string>)
    requires IsPlainPath(p) && IsPlainPath(q) && Key(p) == Key(q)
    ensures p == q
  {
    PlainKeyIsEmpty(p);
    PlainKeyIsEmpty(q);
    if p != [] && q != [] {
      var a, s, b, t := p[..|p| - 1], p[|p| - 1], q[..|q| - 1], q[|q| - 1];
      assert IsPlain(s) && IsPlain(t);
      SegmentsSplit(Key(a), s, Key(b), t);
      KeyIsInjective(a, b);
      assert p == a + [s] && q == b + [t];
    }
  }

  /** So a file of bare keys loses nothing: its document says, at the dotted form of
    * each path, what stands at the end of that path, and lists the tables.
    */
  lemma PlainKeysLoseNothing(root: Toml, path: seq<string>)
    requires HasPlainKeys(root) && IsPlainPath(path)
    ensures Says("", root, Key(path)) == Stands(At(root, path))
    ensures Key(path) in Tables("", root) <==> path != [] && StandsTable(At(root, path))
  {
    EveryKeyIsAPath(root, Key(path));
    TablesExactly(root, Key(path));
    if Says("", root, Key(path)).Some? {
      var said :| Key(path) == Key(said) && Stands(At(root, said)) == Says("", root, Key(path));
      KeyIsInjective(path, said);
    }
    if Key(path) in Tables("", root) {
      var listed :| Key(path) == Key(listed) && StandsTable(At(root, listed));
      KeyIsInjective(path, listed);
    }
    PlainKeyIsEmpty(path);
  }

  // ----- which files load -----

  /** A value of a supported type. */
  predicate IsSupported(value: Toml, mode: ArrayMode) {
    match value
    case Array(elements) => mode.StringOnly? && AreTexts(elements)
    case Datetime => false
    case _ => true
  }

  predicate IsScalar(value: Toml) {
    value.Text? || value.Plain?
  }

  predicate Admits(key: string, found: Option<Toml>, mode: ArrayMode) {
    found.Some? ==> IsSupported(found.value, mode) && (IsScalar(found.value) ==> key != "")
  }

  ghost predicate AdmitsAll(from: seq<string>, value: Toml, mode: ArrayMode) {
    forall path :: Admits(Key(from + path), At(value, path), mode)
  }

  ghost predicate AdmitsAllIn(from: seq<string>, fields: Fields, mode: ArrayMode) {
    forall path | path != [] :: Admits(Key(from + path), AtIn(fields, path), mode)
  }

  lemma {:induction false} LoadsBelow(from: seq<string>, value: Toml, mode: ArrayMode)
    requires NamesOnce(value)
    ensures Rejected(Key(from), value, mode).None? <==> AdmitsAll(from, value, mode)
    decreases value
  {
    if value.Table? {
      LoadsBelowIn(from, value.fields, mode);
      TableAdmits(from, value, mode);
    } else {
      assert from + [] == from && At(value, []) == Some(value);
      assert AdmitsAll(from, value, mode) ==> Admits(Key(from + []), At(value, []), mode);
    }
  }

  lemma TableAdmits(from: seq<string>, value: Toml, mode: ArrayMode)
    requires value.Table?
    ensures AdmitsAll(from, value, mode) <==> AdmitsAllIn(from, value.fields, mode)
  {
    if AdmitsAll(from, value, mode) {
      forall path | path != [] ensures Admits(Key(from + path), AtIn(value.fields, path), mode) {
        assert Admits(Key(from + path), At(value, path), mode);
      }
    }
  }

  lemma {:induction false} LoadsBelowIn(from: seq<string>, fields: Fields, mode: ArrayMode)
    requires NamesOnceIn(fields)
    ensures RejectedIn(Key(from), fields, mode).None? <==> AdmitsAllIn(from, fields, mode)
    decreases fields
  {
    if fields.Field? {
      StepDown(from, fields.segment, []);
      LoadsBelow(from + [fields.segment], fields.value, mode);
      LoadsBelowIn(from, fields.rest, mode);
      FirstAdmits(from, fields, mode);
    }
  }

  lemma FirstAdmits(from: seq<string>, fields: Fields, mode: ArrayMode)
    requires fields.Field? && NamesOnceIn(fields)
    ensures AdmitsAllIn(from, fields, mode)
       <==> AdmitsAll(from + [fields.segment], fields.value, mode) && AdmitsAllIn(from, fields.rest, mode)
  {
    var here := from + [fields.segment];
    if AdmitsAllIn(from, fields, mode) {
      forall path ensures Admits(Key(here + path), At(fields.value, path), mode) {
        StepDown(from, fields.segment, path);
        AtFirst(fields, path);
        assert Admits(Key(from + ([fields.segment] + path)), AtIn(fields, [fields.segment] + path), mode);
      }
      forall path | path != [] ensures Admits(Key(from + path), AtIn(fields.rest, path), mode) {
        if AtIn(fields.rest, path).Some? { AtLater(fields, path); }
        assert Admits(Key(from + path), AtIn(fields, path), mode);
      }
    }
    if AdmitsAll(here, fields.value, mode) && AdmitsAllIn(from, fields.rest, mode) {
      forall path | path != [] ensures Admits(Key(from + path), AtIn(fields, path), mode) {
        if path[0] == fields.segment {
          StepDown(from, fields.segment, path[1..]);
          assert path == [fields.segment] + path[1..];
          assert Admits(Key(here + path[1..]), At(fields.value, path[1..]), mode);
        } else {
          assert Admits(Key(from + path), AtIn(fields.rest, path), mode);
        }
      }
    }
  }

  /** Only names that are all empty have an empty dotted form. */
  lemma {:induction false} KeyIsEmpty(path: seq<string>)
    ensures Key(path) == "" <==> forall segment | segment in path :: segment == ""
  {
    if path != [] {
      var before, last := path[..|path| - 1], path[|path| - 1];
      assert path == before + [last];
      KeyIsEmpty(before);
      assert last in path && forall segment | segment in before :: segment in path;
    }
  }

  ghost predicate AllSupported(root: Toml, mode: ArrayMode) {
    forall path | At(root, path).Some? :: IsSupported(At(root, path).value, mode)
  }

  /** No scalar stands where all names are empty. */
  ghost predicate ScalarsAreNamed(root: Toml) {
    forall path | At(root, path).Some? && IsScalar(At(root, path).value) ::
      exists segment :: segment in path && segment != ""
  }

  /** A file is flattened if and only if every value in it is of a supported type and
    * every scalar has a name.
    */
  lemma LoadsExactly(root: Toml, mode: ArrayMode)
    requires NamesOnce(root)
    ensures Rejected("", root, mode).None? <==> AllSupported(root, mode) && ScalarsAreNamed(root)
  {
    LoadsBelow([], root, mode);
    forall path
      ensures Admits(Key([] + path), At(root, path), mode)
         <==> Admits(Key(path), At(root, path), mode)
      ensures Key(path) == "" <==> forall segment | segment in path :: segment == ""
    {
      assert [] + path == path;
      KeyIsEmpty(path);
    }
    if AdmitsAll([], root, mode) {
      forall path | At(root, path).Some?
        ensures IsSupported(At(root, path).value, mode)
        ensures IsScalar(At(root, path).value) ==> exists segment :: segment in path && segment != ""
      {
        assert Admits(Key([] + path), At(root, path), mode);
      }
    }
  }

  /** An error names a value at a path of its key, and what is wrong with it. */
  ghost predicate RejectionHolds(from: seq<string>, found: Option<Toml>, path: seq<string>, mode: ArrayMode,
                                 error: Unsupported)
  {
    && found.Some? && error.key == Key(from + path)
    && match found.value
       case Table(_) => false
       case Datetime => error.kind == "datetime"
       case Array(elements) =>
         if mode.Reject? then error.kind == "array"
         else error.kind == "non-string array" && exists e :: e in elements && !e.Text?
       case _ => error.kind == "root scalar" && error.key == ""
  }

  lemma {:induction false} RejectedHolds(from: seq<string>, value: Toml, mode: ArrayMode) returns (path: seq<string>)
    requires NamesOnce(value) && Rejected(Key(from), value, mode).Some?
    ensures RejectionHolds(from, At(value, path), path, mode, Rejected(Key(from), value, mode).value)
    decreases value
  {
    if value.Table? {
      path := RejectedHoldsIn(from, value.fields, mode);
    } else {
      path := [];
      assert from + path == from;
    }
  }

  lemma {:induction false} RejectedHoldsIn(from: seq<string>, fields: Fields, mode: ArrayMode)
    returns (path: seq<string>)
    requires NamesOnceIn(fields) && RejectedIn(Key(from), fields, mode).Some?
    ensures path != []
    ensures RejectionHolds(from, AtIn(fields, path), path, mode, RejectedIn(Key(from), fields, mode).value)
    decreases fields
  {
    StepDown(from, fields.segment, []);
    if Rejected(Extend(Key(from), fields.segment), fields.value, mode).Some? {
      var below := RejectedHolds(from + [fields.segment], fields.value, mode);
      path := [fields.segment] + below;
      StepDown(from, fields.segment, below);
      AtFirst(fields, below);
    } else {
      path := RejectedHoldsIn(from, fields.rest, mode);
      AtLater(fields, path);
    }
  }

  /** The error of a file that is refused names a value of it by its dotted form, and says truly what it is. */
  lemma RefusalIsTrue(root: Toml, mode: ArrayMode)
    requires NamesOnce(root) && Rejected("", root, mode).Some?
    ensures exists path :: RejectionHolds([], At(root, path), path, mode, Rejected("", root, mode).value)
  {
    var path := RejectedHolds([], root, mode);
  }

  // ----- what can be lost -----

  const ONE := Plain("1")
  const TWO := Plain("2")
  const DOTTED := Table(Field("a", Table(Field("b", ONE, NoFields)), Field("a.b", TWO, NoFields)))
  const UNNAMED := Table(Field("", Table(Field("a", TWO, NoFields)), Field("a", ONE, NoFields)))

  lemma KeyOfTwo(first: string, second: string)
    ensures Key([first]) == first && Key([first, second]) == Extend(first, second)
    ensures [first, second][1..] == [second] && [second][1..] == []
  {
    KeyMore([], first);
    KeyMore([first], second);
    assert [] + [first] == [first] && [first] + [second] == [first, second];
  }

  /** A quoted name with a dot can hide a value of another table. */
  lemma DottedNameHides()
    ensures NamesOnce(DOTTED) && Rejected("", DOTTED, StringOnly).None?
    ensures At(DOTTED, ["a", "b"]) == Some(ONE) && Key(["a", "b"]) == "a.b"
    ensures Says("", DOTTED, "a.b") == Leaf(TWO) != Leaf(ONE)
    ensures !LosesNothing(DOTTED)
  {
    KeyOfTwo("a", "b");
    assert Extend("a", "b") == "a.b";
    assert Stands(At(DOTTED, ["a", "b"])) == Leaf(ONE);
  }

  /** What stands in a table with an empty name can be hidden by what stands beside it. */
  lemma EmptyNameHides()
    ensures NamesOnce(UNNAMED) && Rejected("", UNNAMED, StringOnly).None?
    ensures At(UNNAMED, ["", "a"]) == Some(TWO) && Key(["", "a"]) == "a"
    ensures Says("", UNNAMED, "a") == Leaf(ONE) != Leaf(TWO)
    ensures !LosesNothing(UNNAMED)
  {
    KeyOfTwo("", "a");
    assert Stands(At(UNNAMED, ["", "a"])) == Leaf(TWO);
  }

  /** A scalar is supported, but not without a name. */
  lemma NamelessScalarIsRefused()
    ensures var root := Table(Field("", ONE, NoFields));
      && NamesOnce(root) && AllSupported(root, StringOnly)
      && Rejected("", root, StringOnly) == Some(Unsupported("", "root scalar"))
  {
    var root := Table(Field("", ONE, NoFields));
    forall path | At(root, path).Some? ensures IsSupported(At(root, path).value, StringOnly) {
      if path != [] { assert At(ONE, path[1..]).Some?; }
    }
  }
}
